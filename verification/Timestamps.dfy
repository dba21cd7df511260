/**
 RFC 3339 timestamps, character by character: how the snapshot writer prints
 the seconds since the epoch and how the Docker scanner reads a timestamp.
 */
module Timestamps {
  import opened Base
  import opened Calendar

  // ------------------------------------------------------------------ numbers

  predicate IsDigit(c: char) {
    '0' <= c <= '9'
  }

  function Digit(n: nat): char
    requires n < 10
  {
    ('0' as int + n) as char
  }

  function Dec(n: nat): string {
    if n < 10 then [Digit(n)] else Dec(n / 10) + [Digit(n % 10)]
  }

  function Zeros(n: nat): string {
    if n == 0 then "" else Zeros(n - 1) + "0"
  }

  /** `{:0width}`: at least that wide, and wider if need be. */
  function Pad(n: nat, width: nat): string {
    Zeros(SatSub(width, |Dec(n)|)) + Dec(n)
  }

  function ParseDigits(s: string): Option<nat> {
    if s == "" then Some(0)
    else
      var front, last := ParseDigits(s[..|s| - 1]), s[|s| - 1];
      if front.Some? && IsDigit(last) then Some(front.value * 10 + (last as int - '0' as int)) else None
  }

  /** Rust's integer parsing, on strings too short to overflow: a sign is fine. */
  function ParseInt(s: string): (r: Option<int>)
    ensures |s| <= 2 && r.Some? ==> -9 <= r.value <= 99
    ensures |s| <= 4 && r.Some? ==> -999 <= r.value <= 9999
  {
    if s == "" then None
    else if s[0] == '+' || s[0] == '-' then
      var n := ParseDigits(s[1..]);
      DigitsBound(s[1..]);
      if |s| == 1 || n.None? then None
      else
        var value: int := n.value;
        Some(if s[0] == '-' then -value else value)
    else
      DigitsBound(s);
      var n := ParseDigits(s);
      if n.None? then None else Some(n.value)
  }

  function Power10(n: nat): nat {
    if n == 0 then 1 else 10 * Power10(n - 1)
  }

  lemma {:induction false} DigitsBound(s: string)
    ensures ParseDigits(s).Some? ==> ParseDigits(s).value < Power10(|s|)
    ensures |s| <= 1 ==> Power10(|s|) <= 10
    ensures |s| <= 2 ==> Power10(|s|) <= 100
    ensures |s| <= 3 ==> Power10(|s|) <= 1000
    ensures |s| <= 4 ==> Power10(|s|) <= 10_000
  {
    if s != "" {
      DigitsBound(s[..|s| - 1]);
    }
  }

  /** The field from `i` to `j`, if the string is long enough and it is a number. */
  function Num(s: string, i: nat, j: nat): (r: Option<int>)
    requires i <= j
    ensures j - i <= 2 && r.Some? ==> -9 <= r.value <= 99
    ensures j - i <= 4 && r.Some? ==> -999 <= r.value <= 9999
  {
    if j <= |s| then ParseInt(s[i..j]) else None
  }

  // ------------------------------------------------------ printing and parsing

  function Rfc3339(secs: nat): string {
    CivilIsValid(secs / 86_400);
    YearIsNatural(secs / 86_400);
    DayStamp(CivilFromDays(secs / 86_400), secs % 86_400)
  }

  function DayStamp(date: Date, rem: nat): string
    requires date.year >= 0 && date.month >= 0 && date.day >= 0
  {
    Stamp(date, rem / 3600, rem % 3600 / 60, rem % 60, "Z")
  }

  function Stamp(date: Date, h: nat, mi: nat, sec: nat, tail: string): string
    requires date.year >= 0 && date.month >= 0 && date.day >= 0
  {
    Pad(date.year, 4) + "-" + Pad(date.month, 2) + "-" + Pad(date.day, 2) + "T"
    + Pad(h, 2) + ":" + Pad(mi, 2) + ":" + Pad(sec, 2) + tail
  }

  /** What is left after the fraction of a second. */
  function TrimFraction(s: string): string {
    if s != "" && (IsDigit(s[0]) || s[0] == '.') then TrimFraction(s[1..]) else s
  }

  /** Seconds to subtract for the zone; anything unreadable counts as none. */
  function Offset(zone: string): int {
    if zone != "" && (zone[0] == '+' || zone[0] == '-') then
      var zh, zm := Num(zone[1..], 0, 2), Num(zone[1..], 3, 5);
      if zh.Some? && zm.Some?
      then (if zone[0] == '+' then 1 else -1) * (zh.value * 3600 + zm.value * 60)
      else 0
    else 0
  }

  function ParseRfc3339(s: string): (r: nat) {
    var y, mo, d := Num(s, 0, 4), Num(s, 5, 7), Num(s, 8, 10);
    if y.None? || mo.None? || d.None? then 0
    else
      var h, mi, sec := Num(s, 11, 13), Num(s, 14, 16), Num(s, 17, 19);
      if h.None? || mi.None? || sec.None? then 0
      else
        var t := DaysFromCivil(y.value, mo.value, d.value) * 86_400 + h.value * 3600 + mi.value * 60 + sec.value;
        Max(0, t - Offset(TrimFraction(if |s| >= 19 then s[19..] else "")))
  }

  // --------------------------------------------------------- years and seconds

  /** The March year of a date, and its day there. */
  lemma MarchYear(date: Date, march: int, doy: int)
    requires Valid(date) && march == (if date.month <= 2 then date.year - 1 else date.year)
    requires doy == Days(date) + 719_468 - YearDays(march)
    ensures 0 <= doy && YearDays(march) + doy < YearDays(march + 1)
    ensures date.month <= 2 <==> doy >= 306
  {
    var mp := (date.month + 9) % 12;
    MarchMonth(date, mp);
    LeapByEra(march / 400, march % 400 + 1);
    DayFitsYear(mp, date.day, march % 400);
    YearStep(march);
  }

  /** A date is in year `y` or later exactly when it is not before January 1. */
  lemma YearOrder(date: Date, y: int)
    requires Valid(date)
    ensures date.year >= y <==> Days(date) >= DaysFromCivil(y, 1, 1)
  {
    var march := if date.month <= 2 then date.year - 1 else date.year;
    var doy := Days(date) + 719_468 - YearDays(march);
    MarchYear(date, march, doy);
    assert DaysFromCivil(y, 1, 1) == YearDays(y - 1) + 306 - 719_468;
    if date.year >= y {
      YearsGrow(y - 1, march);
    } else if date.month <= 2 {
      YearsGrow(march + 1, y - 1);
    } else {
      YearsGrow(march, y - 1);
    }
  }

  lemma YearIsNatural(days: nat)
    ensures CivilFromDays(days).year >= 1970
  {
    CivilIsValid(days);
    YearOrder(CivilFromDays(days), 1970);
  }

  /** The first second of the year 10000. */
  const FIVE_DIGITS: nat := 253_402_300_800

  lemma FourDigitYear(secs: nat, date: Date)
    requires Valid(date) && Days(date) == secs / 86_400
    ensures date.year < 10_000 <==> secs < FIVE_DIGITS
  {
    YearOrder(date, 10_000);
    assert DaysFromCivil(10_000, 1, 1) * 86_400 == FIVE_DIGITS;
  }

  // -------------------------------------------------------------------- digits

  lemma {:induction false} DecParses(n: nat)
    ensures ParseDigits(Dec(n)) == Some(n) && Dec(n) != "" && IsDigit(Dec(n)[0])
  {
    if n >= 10 {
      DecParses(n / 10);
      assert Dec(n)[..|Dec(n)| - 1] == Dec(n / 10);
    } else {
      assert Dec(n)[..0] == "";
    }
  }

  lemma {:induction false} ZerosAre(n: nat)
    ensures |Zeros(n)| == n && ParseDigits(Zeros(n)) == Some(0) && (n > 0 ==> Zeros(n)[0] == '0')
  {
    if n > 0 {
      ZerosAre(n - 1);
      assert Zeros(n)[..n - 1] == Zeros(n - 1);
    }
  }

  lemma {:induction false} ZerosParse(n: nat, s: string)
    ensures ParseDigits(Zeros(n) + s) == ParseDigits(s)
    decreases |s|
  {
    if s == "" {
      ZerosAre(n);
      assert Zeros(n) + s == Zeros(n);
    } else {
      ZerosParse(n, s[..|s| - 1]);
      assert (Zeros(n) + s)[..|Zeros(n) + s| - 1] == Zeros(n) + s[..|s| - 1];
    }
  }

  lemma UnsignedParses(s: string, n: nat)
    requires s != "" && IsDigit(s[0]) && ParseDigits(s) == Some(n)
    ensures ParseInt(s) == Some(n)
  {
  }

  /** A printed number reads back as itself. */
  lemma PadParses(n: nat, width: nat)
    ensures ParseInt(Pad(n, width)) == Some(n) && IsDigit(Pad(n, width)[0])
  {
    DecParses(n);
    PaddedParses(SatSub(width, |Dec(n)|), Dec(n), n);
  }

  lemma PaddedParses(zeros: nat, s: string, n: nat)
    requires s != "" && IsDigit(s[0]) && ParseDigits(s) == Some(n)
    ensures Zeros(zeros) + s != "" && IsDigit((Zeros(zeros) + s)[0])
    ensures ParseInt(Zeros(zeros) + s) == Some(n)
  {
    ZerosAre(zeros);
    ZerosParse(zeros, s);
    UnsignedParses(Zeros(zeros) + s, n);
  }

  lemma {:induction false} DecLength(n: nat, width: nat)
    requires width > 0
    ensures n < Power10(width) <==> |Dec(n)| <= width
    decreases width
  {
    if n >= 10 && width > 1 {
      DecLength(n / 10, width - 1);
    } else if n >= 10 {
      DecParses(n / 10);
    } else {
      PowerGrows(width - 1);
    }
  }

  lemma {:induction false} PowerGrows(n: nat)
    ensures Power10(n) >= 1
  {
    if n > 0 {
      PowerGrows(n - 1);
    }
  }

  lemma PadLength(n: nat, width: nat)
    requires width > 0
    ensures |Pad(n, width)| == Max(width, |Dec(n)|)
    ensures n < Power10(width) ==> |Pad(n, width)| == width
  {
    ZerosAre(SatSub(width, |Dec(n)|));
    DecLength(n, width);
  }

  /** Two-digit fields are two characters long and read back as themselves. */
  lemma Field(n: nat)
    requires n < 100
    ensures |Pad(n, 2)| == 2 && ParseInt(Pad(n, 2)) == Some(n) && IsDigit(Pad(n, 2)[0])
  {
    assert Power10(2) == 100;
    PadLength(n, 2);
    PadParses(n, 2);
  }

  // ------------------------------------------------------------- main results

  /** Where the fields of a stamp are, after a year of any width. */
  lemma StampFields(year: string, mo: string, d: string, h: string, mi: string, sec: string, tail: string)
    requires |mo| == |d| == |h| == |mi| == |sec| == 2
    ensures var s := year + "-" + mo + "-" + d + "T" + h + ":" + mi + ":" + sec + tail;
            var n := |year|;
            && |s| == n + 15 + |tail| && s[..n] == year && s[n] == '-' && s[n + 1..n + 3] == mo
            && s[n + 3] == '-' && s[n + 4..n + 6] == d && s[n + 6] == 'T' && s[n + 7..n + 9] == h
            && s[n + 10..n + 12] == mi && s[n + 13..n + 15] == sec && s[n + 15..] == tail
  {
  }

  /** The instant a stamp names. */
  function Instant(date: Date, h: nat, mi: nat, sec: nat, offset: int): int
    requires Valid(date)
  {
    Days(date) * 86_400 + h * 3600 + mi * 60 + sec - offset
  }

  /**
   Every date and time with a four-digit year is read as the instant it names,
   less the offset in its tail, and instants before the epoch as 0.
   */
  lemma StampParses(date: Date, h: nat, mi: nat, sec: nat, tail: string)
    requires Valid(date) && 0 <= date.year < 10_000 && h < 100 && mi < 100 && sec < 100
    ensures ParseRfc3339(Stamp(date, h, mi, sec, tail))
         == Max(0, Instant(date, h, mi, sec, Offset(TrimFraction(tail))))
  {
    assert Power10(4) == 10_000;
    PadLength(date.year, 4);
    PadParses(date.year, 4);
    Field(date.month);
    Field(date.day);
    Field(h);
    Field(mi);
    Field(sec);
    StampFields(Pad(date.year, 4), Pad(date.month, 2), Pad(date.day, 2), Pad(h, 2), Pad(mi, 2), Pad(sec, 2), tail);
  }

  lemma {:induction false} TrimDigits(digits: string, zone: string)
    requires forall k :: 0 <= k < |digits| ==> IsDigit(digits[k]) || digits[k] == '.'
    requires zone != "" && !IsDigit(zone[0]) && zone[0] != '.'
    ensures TrimFraction(digits + zone) == zone
  {
    if digits == "" {
      assert digits + zone == zone;
    } else {
      TrimDigits(digits[1..], zone);
      assert (digits + zone)[1..] == digits[1..] + zone;
    }
  }

  /** The zone of section 5.6: `Z`, or a signed number of hours and minutes. */
  datatype Zone = Utc | Ahead(hours: nat, minutes: nat) | Behind(hours: nat, minutes: nat)

  function ZoneText(zone: Zone): string {
    match zone
    case Utc => "Z"
    case Ahead(h, m) => "+" + Pad(h, 2) + ":" + Pad(m, 2)
    case Behind(h, m) => "-" + Pad(h, 2) + ":" + Pad(m, 2)
  }

  /** Local time less this is UTC. */
  function ZoneSeconds(zone: Zone): int {
    match zone
    case Utc => 0
    case Ahead(h, m) => h * 3600 + m * 60
    case Behind(h, m) => -(h * 3600 + m * 60)
  }

  lemma ZoneDigits(h: nat, m: nat)
    requires h < 100 && m < 100
    ensures var text := Pad(h, 2) + ":" + Pad(m, 2);
            Num(text, 0, 2) == Some(h) && Num(text, 3, 5) == Some(m)
  {
    Field(h);
    Field(m);
    var text := Pad(h, 2) + ":" + Pad(m, 2);
    assert text[0..2] == Pad(h, 2) && text[3..5] == Pad(m, 2);
  }

  lemma SignFirst(sign: char, a: string, b: string)
    ensures var s := [sign] + a + ":" + b;
            s != "" && s[0] == sign && s[1..] == a + ":" + b
  {
  }

  lemma SignedOffset(zone: string, h: nat, m: nat)
    requires zone != "" && (zone[0] == '+' || zone[0] == '-')
    requires Num(zone[1..], 0, 2) == Some(h) && Num(zone[1..], 3, 5) == Some(m)
    ensures Offset(zone) == if zone[0] == '+' then h * 3600 + m * 60 else -(h * 3600 + m * 60)
  {
  }

  lemma ZoneParses(zone: Zone)
    requires zone.Utc? || (zone.hours < 100 && zone.minutes < 100)
    ensures Offset(ZoneText(zone)) == ZoneSeconds(zone)
  {
    match zone
    case Utc =>
    case Ahead(h, m) =>
      ZoneDigits(h, m);
      SignFirst('+', Pad(h, 2), Pad(m, 2));
      SignedOffset(ZoneText(zone), h, m);
    case Behind(h, m) =>
      ZoneDigits(h, m);
      SignFirst('-', Pad(h, 2), Pad(m, 2));
      SignedOffset(ZoneText(zone), h, m);
  }

  /**
   Any date-time of RFC 3339, with or without a fraction of a second and in any
   zone, is read as the whole second it names in UTC.
   */
  lemma EveryZoneParses(date: Date, h: nat, mi: nat, sec: nat, fraction: string, zone: Zone)
    requires Valid(date) && 0 <= date.year < 10_000 && h < 24 && mi < 60 && sec <= 60
    requires forall k :: 0 <= k < |fraction| ==> IsDigit(fraction[k]) || fraction[k] == '.'
    requires zone.Utc? || (zone.hours < 24 && zone.minutes < 60)
    ensures ParseRfc3339(Stamp(date, h, mi, sec, fraction + ZoneText(zone)))
         == Max(0, Instant(date, h, mi, sec, ZoneSeconds(zone)))
  {
    TrimDigits(fraction, ZoneText(zone));
    ZoneParses(zone);
    StampParses(date, h, mi, sec, fraction + ZoneText(zone));
  }

  /** The printed fields are a time of day and name the second. */
  lemma ClockFields(rem: nat)
    requires rem < 86_400
    ensures rem / 3600 < 24 && rem % 3600 / 60 < 60 && rem % 60 < 60
    ensures rem / 3600 * 3600 + rem % 3600 / 60 * 60 + rem % 60 == rem
  {
    var r := rem % 3600;
    assert rem == rem / 3600 * 3600 + r && r == r / 60 * 60 + r % 60;
    assert rem % 60 == r % 60 by { DivIs(rem, 60, 60 * (rem / 3600) + r / 60); }
  }

  // ------------------------------------------------- beyond four-digit years

  predicate NotNumeric(s: string) {
    |s| == 2 && ((!IsDigit(s[0]) && s[0] != '+' && s[0] != '-') || !IsDigit(s[1]))
  }

  lemma NotANumber(s: string)
    requires NotNumeric(s)
    ensures ParseInt(s).None?
  {
    var first, last := s[..1], s[1..];
    assert first[..|first| - 1] == "" && last[..|last| - 1] == "";
    assert s[..|s| - 1] == first;
    assert !IsDigit(s[1]) ==> ParseDigits(last).None? && ParseDigits(s).None?;
    assert !IsDigit(s[0]) ==> ParseDigits(first).None?;
  }

  /** How wide a year of five or six digits is. */
  lemma WideYear(year: nat)
    requires 10_000 <= year < 1_000_000
    ensures |Pad(year, 4)| == (if year < 100_000 then 5 else 6)
  {
    assert Power10(4) == 10_000 && Power10(5) == 100_000 && Power10(6) == 1_000_000;
    DecLength(year, 4);
    DecLength(year, 5);
    DecLength(year, 6);
    PadLength(year, 4);
  }

  lemma FieldFails(s: string)
    requires (|s| >= 13 && NotNumeric(s[11..13])) || (|s| >= 7 && NotNumeric(s[5..7]))
    ensures ParseRfc3339(s) == 0
  {
    if |s| >= 13 && NotNumeric(s[11..13]) {
      NotANumber(s[11..13]);
    } else {
      NotANumber(s[5..7]);
    }
  }

  /** Five digits push the `T` into the hour; six, a dash into the month. */
  lemma WideYearFails(date: Date, h: nat, mi: nat, sec: nat)
    requires 10_000 <= date.year < 1_000_000 && 1 <= date.month < 100 && 1 <= date.day < 100
    requires h < 100 && mi < 100 && sec < 100
    ensures ParseRfc3339(Stamp(date, h, mi, sec, "Z")) == 0
  {
    WideYear(date.year);
    Field(date.month);
    Field(date.day);
    Field(h);
    Field(mi);
    Field(sec);
    WideStampFails(Pad(date.year, 4), Pad(date.month, 2), Pad(date.day, 2), Pad(h, 2), Pad(mi, 2), Pad(sec, 2), "Z");
  }

  lemma WideStampFails(year: string, mo: string, d: string, h: string, mi: string, sec: string, tail: string)
    requires 5 <= |year| <= 6 && |mo| == |d| == |h| == |mi| == |sec| == 2
    ensures ParseRfc3339(year + "-" + mo + "-" + d + "T" + h + ":" + mi + ":" + sec + tail) == 0
  {
    var s := year + "-" + mo + "-" + d + "T" + h + ":" + mi + ":" + sec + tail;
    StampFields(year, mo, d, h, mi, sec, tail);
    assert |year| == 5 ==> s[11..13][0] == s[11] == 'T';
    assert |year| == 6 ==> s[5..7][1] == s[6] == '-';
    FieldFails(s);
  }

  /** No three numbers of a stamp are read as a later day than this. */
  lemma DaysAreBounded(y: int, mo: int, d: int)
    requires y <= 9999 && -9 <= mo <= 99 && d <= 99
    ensures DaysFromCivil(y, mo, d) <= 2_933_026
  {
    YearsGrow(if mo <= 2 then y - 1 else y, 9999);
    assert YearDays(9999) == 3_652_059;
    assert MonthDays((mo + 9) % 12) <= 337;
  }

  /** No string at all is read as a later second than this. */
  lemma ParseIsBounded(s: string)
    ensures ParseRfc3339(s) < 300_000_000_000
  {
    var y, mo, d := Num(s, 0, 4), Num(s, 5, 7), Num(s, 8, 10);
    if y.Some? && mo.Some? && d.Some? {
      DaysAreBounded(y.value, mo.value, d.value);
      OffsetIsBounded(TrimFraction(if |s| >= 19 then s[19..] else ""));
    }
  }

  lemma OffsetIsBounded(zone: string)
    ensures -400_000 <= Offset(zone) <= 400_000
  {
  }

  /**
   Printing and parsing invert each other exactly up to the end of year 9999;
   beyond it the scanner never gets the second back.
   */
  lemma RoundTripIff(secs: nat)
    ensures ParseRfc3339(Rfc3339(secs)) == secs <==> secs < FIVE_DIGITS
  {
    var date := CivilFromDays(secs / 86_400);
    CivilIsValid(secs / 86_400);
    YearIsNatural(secs / 86_400);
    FourDigitYear(secs, date);
    Reread(date, secs % 86_400);
    assert secs == Days(date) * 86_400 + secs % 86_400;
  }

  lemma Reread(date: Date, rem: nat)
    requires Valid(date) && Days(date) >= 0 && date.year >= 1970 && rem < 86_400
    ensures ParseRfc3339(DayStamp(date, rem)) == Days(date) * 86_400 + rem <==> date.year < 10_000
  {
    ClockFields(rem);
    var h, mi, sec := rem / 3600, rem % 3600 / 60, rem % 60;
    if date.year < 10_000 {
      StampParses(date, h, mi, sec, "Z");
      assert TrimFraction("Z") == "Z" && Offset("Z") == 0;
    } else if date.year < 1_000_000 {
      WideYearFails(date, h, mi, sec);
      YearOrder(date, 10_000);
    } else {
      ParseIsBounded(Stamp(date, h, mi, sec, "Z"));
      YearOrder(date, 1_000_000);
    }
  }

  // ------------------------------------------------------------ the printed text

  predicate AllDigits(s: string) {
    forall k :: 0 <= k < |s| ==> IsDigit(s[k])
  }

  lemma {:induction false} DecIsDigits(n: nat)
    ensures AllDigits(Dec(n)) && Dec(n) != "" && (Dec(n)[0] == '0' ==> n == 0)
  {
    if n >= 10 {
      DecIsDigits(n / 10);
    }
  }

  lemma {:induction false} ZerosAreDigits(n: nat)
    ensures AllDigits(Zeros(n))
  {
    if n > 0 {
      ZerosAreDigits(n - 1);
    }
  }

  /** A printed number is all digits, and has no more of them than its width and its value need. */
  lemma PadIsDigits(n: nat, width: nat)
    ensures AllDigits(Pad(n, width)) && ParseDigits(Pad(n, width)) == Some(n) && Pad(n, width) != ""
    ensures width >= 1 && |Pad(n, width)| > width ==> Pad(n, width)[0] != '0'
  {
    DecIsDigits(n);
    DecParses(n);
    ZerosAreDigits(SatSub(width, |Dec(n)|));
    ZerosAre(SatSub(width, |Dec(n)|));
    ZerosParse(SatSub(width, |Dec(n)|), Dec(n));
    if |Dec(n)| > width {
      assert Zeros(0) + Dec(n) == Dec(n);
    }
  }

  lemma TwoDigits(n: nat)
    requires n < 100
    ensures |Pad(n, 2)| == 2 && AllDigits(Pad(n, 2)) && ParseDigits(Pad(n, 2)) == Some(n)
  {
    Field(n);
    PadIsDigits(n, 2);
  }

  /** Digits with the punctuation of RFC 3339 between them, after a year of `n` digits. */
  ghost predicate Punctuated(s: string, n: nat) {
    && |s| == n + 16
    && AllDigits(s[..n]) && s[n] == '-' && AllDigits(s[n + 1..n + 3]) && s[n + 3] == '-' && AllDigits(s[n + 4..n + 6])
    && s[n + 6] == 'T' && AllDigits(s[n + 7..n + 9]) && s[n + 9] == ':' && AllDigits(s[n + 10..n + 12])
    && s[n + 12] == ':' && AllDigits(s[n + 13..n + 15]) && s[n + 15] == 'Z'
  }

  /** The fields are that date and that time of day. */
  ghost predicate Reads(s: string, n: nat, date: Date, h: nat, mi: nat, sec: nat)
    requires |s| == n + 16
  {
    && date.year >= 0 && date.month >= 0 && date.day >= 0
    && ParseDigits(s[..n]) == Some(date.year) && ParseDigits(s[n + 1..n + 3]) == Some(date.month)
    && ParseDigits(s[n + 4..n + 6]) == Some(date.day) && ParseDigits(s[n + 7..n + 9]) == Some(h)
    && ParseDigits(s[n + 10..n + 12]) == Some(mi) && ParseDigits(s[n + 13..n + 15]) == Some(sec)
  }

  lemma Assembled(year: string, mo: string, d: string, h: string, mi: string, sec: string)
    requires |mo| == |d| == |h| == |mi| == |sec| == 2
    requires AllDigits(year) && AllDigits(mo) && AllDigits(d) && AllDigits(h) && AllDigits(mi) && AllDigits(sec)
    ensures Punctuated(year + "-" + mo + "-" + d + "T" + h + ":" + mi + ":" + sec + "Z", |year|)
  {
    var s := year + "-" + mo + "-" + d + "T" + h + ":" + mi + ":" + sec + "Z";
    StampFields(year, mo, d, h, mi, sec, "Z");
    assert s[|year| + 9] == ':' && s[|year| + 12] == ':' && s[|year| + 15..][0] == 'Z';
  }

  /** The text of a date and time, whatever the width of its year. */
  ghost predicate IsText(s: string, date: Date, h: nat, mi: nat, sec: nat) {
    exists n: nat :: Punctuated(s, n) && Reads(s, n, date, h, mi, sec) && n >= 4 && (n > 4 ==> s[0] != '0')
  }

  lemma AssembledReads(year: string, mo: string, d: string, h: string, mi: string, sec: string,
                       date: Date, hours: nat, minutes: nat, seconds: nat)
    requires |mo| == |d| == |h| == |mi| == |sec| == 2 && date.year >= 0 && date.month >= 0 && date.day >= 0
    requires ParseDigits(year) == Some(date.year) && ParseDigits(mo) == Some(date.month) && ParseDigits(d) == Some(date.day)
    requires ParseDigits(h) == Some(hours) && ParseDigits(mi) == Some(minutes) && ParseDigits(sec) == Some(seconds)
    ensures var s := year + "-" + mo + "-" + d + "T" + h + ":" + mi + ":" + sec + "Z";
            |s| == |year| + 16 && Reads(s, |year|, date, hours, minutes, seconds) && s[..|year|] == year
  {
    StampFields(year, mo, d, h, mi, sec, "Z");
  }

  lemma StampReads(date: Date, h: nat, mi: nat, sec: nat)
    requires Valid(date) && date.year >= 0 && h < 100 && mi < 100 && sec < 100
    ensures var s, n := Stamp(date, h, mi, sec, "Z"), |Pad(date.year, 4)|;
            Punctuated(s, n) && Reads(s, n, date, h, mi, sec) && s[..n] == Pad(date.year, 4)
  {
    PadIsDigits(date.year, 4);
    TwoDigits(date.month);
    TwoDigits(date.day);
    TwoDigits(h);
    TwoDigits(mi);
    TwoDigits(sec);
    Assembled(Pad(date.year, 4), Pad(date.month, 2), Pad(date.day, 2), Pad(h, 2), Pad(mi, 2), Pad(sec, 2));
    AssembledReads(Pad(date.year, 4), Pad(date.month, 2), Pad(date.day, 2), Pad(h, 2), Pad(mi, 2), Pad(sec, 2),
                   date, h, mi, sec);
  }

  lemma StampIsText(s: string, n: nat, date: Date, h: nat, mi: nat, sec: nat)
    requires Punctuated(s, n) && Reads(s, n, date, h, mi, sec) && s[..n] == Pad(date.year, 4) && n == |Pad(date.year, 4)|
    ensures IsText(s, date, h, mi, sec) && (|s| == 20 <==> date.year < 10_000)
  {
    YearWidth(date.year);
    PadIsDigits(date.year, 4);
    assert s[0] == s[..n][0];
  }

  /**
   What is printed, character by character: a year of four digits, or of as many
   as it needs, and five fields of two, with `-`, `-`, `T`, `:`, `:` between them
   and `Z` at the end; they are the calendar date and the time of day in UTC.
   */
  lemma PrintedText(secs: nat) returns (date: Date, h: nat, mi: nat, sec: nat)
    ensures var s := Rfc3339(secs);
            IsText(s, date, h, mi, sec) && (|s| == 20 <==> secs < 253_402_300_800)
    ensures Valid(date) && Days(date) == secs / 86_400
    ensures h < 24 && mi < 60 && sec < 60 && h * 3600 + mi * 60 + sec == secs % 86_400
  {
    date := CivilFromDays(secs / 86_400);
    CivilIsValid(secs / 86_400);
    YearIsNatural(secs / 86_400);
    FourDigitYear(secs, date);
    h, mi, sec := DayText(date, secs % 86_400);
  }

  /** The text of one second of a day. */
  lemma DayText(date: Date, rem: nat) returns (h: nat, mi: nat, sec: nat)
    requires Valid(date) && date.year >= 0 && rem < 86_400
    ensures var s := DayStamp(date, rem);
            IsText(s, date, h, mi, sec) && (|s| == 20 <==> date.year < 10_000)
    ensures h < 24 && mi < 60 && sec < 60 && h * 3600 + mi * 60 + sec == rem
  {
    ClockFields(rem);
    h, mi, sec := rem / 3600, rem % 3600 / 60, rem % 60;
    StampReads(date, h, mi, sec);
    StampIsText(Stamp(date, h, mi, sec, "Z"), |Pad(date.year, 4)|, date, h, mi, sec);
  }

  lemma YearWidth(year: nat)
    ensures |Pad(year, 4)| >= 4 && (|Pad(year, 4)| == 4 <==> year < 10_000)
  {
    assert Power10(4) == 10_000;
    PadLength(year, 4);
    DecLength(year, 4);
  }

  // ------------------------------------------------------------- unreadable text

  lemma {:induction false} DigitsIff(s: string)
    ensures ParseDigits(s).Some? <==> AllDigits(s)
    decreases |s|
  {
    if s != "" {
      DigitsIff(s[..|s| - 1]);
    }
  }

  /** A number is one digit or more, after a sign or none. */
  lemma IntegerIff(s: string)
    ensures ParseInt(s).Some? <==>
              || (s != "" && AllDigits(s))
              || (|s| >= 2 && (s[0] == '+' || s[0] == '-') && AllDigits(s[1..]))
  {
    DigitsIff(s);
    if s != "" {
      DigitsIff(s[1..]);
    }
  }

  /** Its sign counts. */
  lemma SignedParses(n: nat)
    ensures var minus: int := 0 - n;
            ParseInt(Dec(n)) == Some(n) && ParseInt("+" + Dec(n)) == Some(n) && ParseInt("-" + Dec(n)) == Some(minus)
  {
    DecParses(n);
    assert ("+" + Dec(n))[1..] == Dec(n) && ("-" + Dec(n))[1..] == Dec(n);
  }

  /** Text that is cut short, or without a number in one of its six fields, is read as 0. */
  lemma UnreadableIsZero(s: string)
    requires || |s| < 19
             || ParseInt(s[0..4]).None? || ParseInt(s[5..7]).None? || ParseInt(s[8..10]).None?
             || ParseInt(s[11..13]).None? || ParseInt(s[14..16]).None? || ParseInt(s[17..19]).None?
    ensures ParseRfc3339(s) == 0
  {
  }

  /** A zone counts only if it has a sign and two numbers with one character between them. */
  lemma OtherZonesCountForNothing(zone: string)
    requires || |zone| < 6 || (zone[0] != '+' && zone[0] != '-')
             || ParseInt(zone[1..3]).None? || ParseInt(zone[4..6]).None?
    ensures Offset(zone) == 0
  {
    if |zone| >= 6 {
      assert zone[1..][0..2] == zone[1..3] && zone[1..][3..5] == zone[4..6];
    }
  }
}
