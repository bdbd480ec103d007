/**
  The daemon's timestamps: the formatter that stamps requests and decisions, and the parser
  that reads the stamps back when expiry is decided. Stamps follow sections 5.6 and 5.7 of
  RFC 3339; strings are sequences of single-byte characters.
 */
module Timestamps {
  import opened Basics
  import opened Calendar

  const U64_MAX: nat := 0xFFFF_FFFF_FFFF_FFFF
  /** Midnight of 1 January 10000: the first instant with a five-digit year. */
  const YEAR_10000: nat := 253_402_300_800

  // ---------------------------------------------------------------------------
  // Decimal numerals
  // ---------------------------------------------------------------------------

  function Digit(d: nat): char
    requires d < 10
  {
    '0' + d as char
  }

  predicate IsDigit(c: char) { '0' <= c <= '9' }

  /** `n` in decimal, zero-padded on the left to at least `w` digits. */
  function Padded(n: nat, w: nat): string
    decreases n, w
  {
    if n == 0 && w == 0 then "" else Padded(n / 10, if w == 0 then 0 else w - 1) + [Digit(n % 10)]
  }

  predicate AllDigits(s: string) { forall c | c in s :: IsDigit(c) }

  /** The number a digit string denotes. */
  function Value(s: string): nat
    requires AllDigits(s)
  {
    if s == "" then 0
    else
      assert IsDigit(s[|s| - 1]);
      10 * Value(s[..|s| - 1]) + (s[|s| - 1] as int - '0' as int)
  }

  function Pow10(w: nat): nat { if w == 0 then 1 else 10 * Pow10(w - 1) }

  lemma {:induction false} PaddedReadsBack(n: nat, w: nat)
    ensures AllDigits(Padded(n, w)) && Value(Padded(n, w)) == n
    ensures |Padded(n, w)| >= w
    ensures n < Pow10(w) ==> |Padded(n, w)| == w
    ensures n >= Pow10(w) ==> |Padded(n, w)| > w
    decreases n, w
  {
    if n != 0 || w != 0 {
      PaddedReadsBack(n / 10, if w == 0 then 0 else w - 1);
      var s := Padded(n, w);
      assert s[..|s| - 1] == Padded(n / 10, if w == 0 then 0 else w - 1);
    }
  }

  /** Rust's unsigned `parse`: an optional plus sign and at least one digit. */
  function ParseUnsigned(s: string): Option<int>
  {
    var body := if |s| > 1 && s[0] == '+' then s[1..] else s;
    if body != "" && AllDigits(body) then Some(Value(body)) else None
  }

  /** Rust's signed `parse`. */
  function ParseSigned(s: string): Option<int>
  {
    if |s| > 1 && s[0] == '-' then
      (if AllDigits(s[1..]) then var v: int := Value(s[1..]); Some(-v) else None)
    else ParseUnsigned(s)
  }

  ghost predicate IsNumeral(d: string) { d != "" && AllDigits(d) }

  /** A numeral parses, bare or with the signs its type allows. */
  lemma NumeralsParse(d: string)
    requires IsNumeral(d)
    ensures ParseUnsigned(d) == ParseSigned(d) == ParseUnsigned("+" + d) == ParseSigned("+" + d) == Some(Value(d))
    ensures ParseSigned("-" + d) == Some(-(Value(d) as int)) && ParseUnsigned("-" + d) == None
  {
    hide Value, AllDigits;
    PlainParses(d);
    assert ("+" + d)[1..] == d && ("-" + d)[1..] == d;
    MinusIsNoDigit(d);
  }

  lemma MinusIsNoDigit(d: string)
    ensures !AllDigits("-" + d)
  {
    assert ("-" + d)[0] in "-" + d;
  }

  lemma PlainParses(d: string)
    requires IsNumeral(d)
    ensures IsDigit(d[0]) && ParseUnsigned(d) == ParseSigned(d) == Some(Value(d))
  {
    hide Value;
    assert d[0] in d;
  }

  /** And nothing else does. */
  lemma OnlyNumeralsParse(s: string)
    ensures ParseUnsigned(s).Some? ==> IsNumeral(s) || (s != "" && s[0] == '+' && IsNumeral(s[1..]))
    ensures ParseSigned(s).Some? ==> IsNumeral(s) || (s != "" && s[0] in "+-" && IsNumeral(s[1..]))
  {
  }

  lemma ParsePadded(n: nat, w: nat)
    requires 0 < w && n < Pow10(w)
    ensures |Padded(n, w)| == w
    ensures ParseUnsigned(Padded(n, w)) == ParseSigned(Padded(n, w)) == Some(n)
  {
    PaddedReadsBack(n, w);
    assert Padded(n, w)[0] in Padded(n, w);
  }

  // ---------------------------------------------------------------------------
  // Formatting
  // ---------------------------------------------------------------------------

  datatype Fields = Fields(year: int, month: int, day: int, hour: int, minute: int, second: int)

  function FieldsOf(secs: nat): Fields
  {
    var date := CivilFromDays(secs / 86_400);
    var tod := secs % 86_400;
    Fields(date.year, date.month, date.day, tod / 3600, (tod % 3600) / 60, tod % 60)
  }

  ghost predicate ValidFields(f: Fields)
  {
    && ValidDate(Date(f.year, f.month, f.day))
    && 0 <= f.hour < 24 && 0 <= f.minute < 60 && 0 <= f.second < 60
  }

  /** Seconds since the epoch, by naive counting. */
  ghost function InstantOf(f: Fields): int
    requires 1 <= f.month <= 12
  {
    DayCount(Date(f.year, f.month, f.day)) * 86_400 + f.hour * 3600 + f.minute * 60 + f.second
  }

  /** The printed fields are a valid instant, and they denote exactly `secs`. */
  lemma FieldsAreRight(secs: nat)
    ensures ValidFields(FieldsOf(secs))
    ensures InstantOf(FieldsOf(secs)) == secs
  {
    hide CivilFromDays;
    CivilIsRight(secs / 86_400);
    var date := CivilFromDays(secs / 86_400);
    assert date == Date(date.year, date.month, date.day);
  }

  /** A two-digit field, the mark after it, and the rest of the stamp. */
  function Group(n: nat, mark: char, rest: string): string
  {
    Padded(n, 2) + [mark] + rest
  }

  function Clock(f: Fields): string
    requires 0 <= f.hour && 0 <= f.minute && 0 <= f.second
  {
    Group(f.hour, ':', Group(f.minute, ':', Group(f.second, 'Z', "")))
  }

  /** YYYY-MM-DDTHH:MM:SSZ */
  function Stamp(f: Fields): string
    requires 0 <= f.year && 0 <= f.month && 0 <= f.day && 0 <= f.hour && 0 <= f.minute && 0 <= f.second
  {
    Padded(f.year, 4) + ['-'] + Group(f.month, '-', Group(f.day, 'T', Clock(f)))
  }

  function UnixToRfc3339(secs: nat): string
  {
    FieldsAreRight(secs);
    Stamp(FieldsOf(secs))
  }

  /** A clock before 1970 counts as 1970, and the sum saturates. */
  function Deadline(now: int, ttl: nat): nat
  {
    var start := if now < 0 then 0 else now;
    if start + ttl <= U64_MAX then start + ttl else U64_MAX
  }

  /** The stamp of that deadline. */
  function RequestExpiry(now: int, ttl: nat): string
  {
    UnixToRfc3339(Deadline(now, ttl))
  }

  // ---------------------------------------------------------------------------
  // Parsing
  // ---------------------------------------------------------------------------

  function LeadingDigits(s: string): (n: nat)
    ensures n <= |s|
  {
    if s != "" && IsDigit(s[0]) then 1 + LeadingDigits(s[1..]) else 0
  }

  /** The offset, in seconds, that a zone designator denotes. */
  function ParseZone(rest: string): Option<int>
  {
    if rest == "" then None
    else if rest[0] == 'Z' || rest[0] == 'z' then Some(0)
    else if rest[0] == '+' || rest[0] == '-' then
      var mm := if |rest| > 3 && rest[3] == ':' then 4 else 3;
      if |rest| < mm + 2 then None
      else
        var hours, minutes := ParseSigned(rest[1..3]), ParseSigned(rest[mm..mm + 2]);
        if hours.None? || minutes.None? then None
        else Some((if rest[0] == '-' then -1 else 1) * (hours.value * 3600 + minutes.value * 60))
    else None
  }

  function ParseRfc3339(s: string): Option<int>
  {
    if |s| < 20 then None
    else if s[4] != '-' || s[7] != '-' || (s[10] != 'T' && s[10] != 't') || s[13] != ':' || s[16] != ':' then None
    else
      var year, month, day := ParseSigned(s[0..4]), ParseUnsigned(s[5..7]), ParseUnsigned(s[8..10]);
      var hour, minute, second := ParseUnsigned(s[11..13]), ParseUnsigned(s[14..16]), ParseUnsigned(s[17..19]);
      if year.None? || month.None? || day.None? || hour.None? || minute.None? || second.None? then None
      else
        var fraction := if s[19] == '.' then LeadingDigits(s[20..]) else 0;
        if s[19] == '.' && fraction == 0 then None
        else
          var offset := ParseZone(if s[19] == '.' then s[20 + fraction..] else s[19..]);
          if offset.None? then None
          else if !(1 <= month.value <= 12) || !(1 <= day.value <= 31) || hour.value > 23 || minute.value > 59 ||
                  second.value > 60 then None
          else
            Some(DaysFromCivil(year.value, month.value, day.value) * 86_400 + hour.value * 3600 + minute.value * 60
                 + second.value - offset.value)
  }

  predicate RequestExpired(expiresAt: string, now: int)
  {
    match ParseRfc3339(expiresAt)
    case Some(expiry) => expiry <= now
    case None => false
  }

  // ---------------------------------------------------------------------------
  // Round trip
  // ---------------------------------------------------------------------------

  lemma YearBelow10000(d: Date)
    requires ValidDate(d)
    ensures d.year < 10_000 <==> DayCount(d) < 2_932_897
  {
    hide IsLeap, MonthStart, YearStart;
    YearHolds(d);
    YearStartClosed(10_000);
    if d.year < 10_000 {
      YearsAddUp(d.year, 10_000);
    } else if d.year > 10_000 {
      YearsAddUp(10_000, d.year);
    }
  }

  lemma FourDigitYears(secs: nat)
    ensures FieldsOf(secs).year < 10_000 <==> secs < YEAR_10000
  {
    hide CivilFromDays, DayCount;
    CivilIsRight(secs / 86_400);
    YearBelow10000(CivilFromDays(secs / 86_400));
  }

  lemma GroupLayout(n: nat, mark: char, rest: string)
    requires n < 100
    ensures var s := Group(n, mark, rest);
      |s| == |rest| + 3 && s[0..2] == Padded(n, 2) && s[2] == mark && s[3..] == rest
  {
    assert Pow10(2) == 100;
    PaddedReadsBack(n, 2);
  }

  lemma ClockLayout(f: Fields)
    requires 0 <= f.hour < 100 && 0 <= f.minute < 100 && 0 <= f.second < 100
    ensures var s := Clock(f);
      && |s| == 9 && s[2] == ':' && s[5] == ':' && s[8] == 'Z'
      && s[0..2] == Padded(f.hour, 2) && s[3..5] == Padded(f.minute, 2) && s[6..8] == Padded(f.second, 2)
  {
    hide Padded, Group;
    GroupLayout(f.second, 'Z', "");
    GroupLayout(f.minute, ':', Group(f.second, 'Z', ""));
    GroupLayout(f.hour, ':', Group(f.minute, ':', Group(f.second, 'Z', "")));
    var s := Clock(f);
    assert s[3..5] == s[3..][0..2] && s[6..8] == s[3..][3..][0..2];
  }

  /** Where each field of a stamp with a four-digit year stands. */
  lemma StampLayout(f: Fields)
    requires 0 <= f.year < 10_000 && 0 <= f.month < 100 && 0 <= f.day < 100
    requires 0 <= f.hour < 100 && 0 <= f.minute < 100 && 0 <= f.second < 100
    ensures var s := Stamp(f);
      && |s| == 20 && s[4] == '-' && s[7] == '-' && s[10] == 'T' && s[11..] == Clock(f)
      && s[0..4] == Padded(f.year, 4) && s[5..7] == Padded(f.month, 2) && s[8..10] == Padded(f.day, 2)
  {
    hide Padded, Group, Clock;
    assert Pow10(4) == 10_000;
    PaddedReadsBack(f.year, 4);
    ClockLayout(f);
    var days := Group(f.day, 'T', Clock(f));
    GroupLayout(f.day, 'T', Clock(f));
    GroupLayout(f.month, '-', days);
    var s, months := Stamp(f), Group(f.month, '-', days);
    assert s[5..] == months;
    assert s[5..7] == months[0..2] && s[8..] == months[3..] && s[8..10] == days[0..2] && s[11..] == days[3..];
    assert s[7] == months[2] && s[10] == days[2];
  }

  /**
    Reading a stamp back gives the instant it was made from, exactly when that instant
    comes before the year 10000; after that the stamp is no longer readable at all.
   */
  lemma RoundTrip(secs: nat)
    ensures ParseRfc3339(UnixToRfc3339(secs)) == Some(secs) <==> secs < YEAR_10000
    ensures secs >= YEAR_10000 ==> ParseRfc3339(UnixToRfc3339(secs)) == None
  {
    hide CivilFromDays, DaysFromCivil;
    FieldsAreRight(secs);
    FourDigitYears(secs);
    var f := FieldsOf(secs);
    if secs < YEAR_10000 {
      ReadsStamp(f);
    } else {
      LongYearUnreadable(f);
    }
  }

  lemma ReadsStamp(f: Fields)
    requires ValidFields(f) && f.year < 10_000
    ensures ParseRfc3339(Stamp(f)) == Some(InstantOf(f))
  {
    hide Padded, Stamp, Clock, ParseRfc3339, InstantOf;
    MonthsFit(f);
    StampLayout(f);
    ClockLayout(f);
    ReadsFields(f, 'T', "", "Z");
    assert Stamp(f) == Head(f, 'T') + "" + "Z" by {
      assert Stamp(f)[19] == Clock(f)[8];
    }
  }

  lemma LongYearUnreadable(f: Fields)
    requires ValidFields(f) && f.year >= 10_000
    ensures ParseRfc3339(Stamp(f)) == None
  {
    assert Pow10(4) == 10_000;
    PaddedReadsBack(f.year, 4);
    assert Stamp(f)[4] == Padded(f.year, 4)[4];
    assert Padded(f.year, 4)[4] in Padded(f.year, 4);
  }

  // ---------------------------------------------------------------------------
  // Stamps of other origin: fractions and other zones
  // ---------------------------------------------------------------------------

  /** The ranges a reader accepts: leap seconds, and days up to the 31st in every month. */
  predicate Acceptable(f: Fields)
  {
    1 <= f.month <= 12 && 1 <= f.day <= 31 && 0 <= f.hour <= 23 && 0 <= f.minute <= 59 && 0 <= f.second <= 60
  }

  predicate TwoDigits(f: Fields)
  {
    && 0 <= f.year < 10_000 && 0 <= f.month < 100 && 0 <= f.day < 100
    && 0 <= f.hour < 100 && 0 <= f.minute < 100 && 0 <= f.second < 100
  }

  /** Nothing, or a point and at least one digit. */
  predicate IsFraction(s: string)
  {
    s == "" || (|s| >= 2 && s[0] == '.' && AllDigits(s[1..]))
  }

  lemma {:induction false} CountsDigits(digits: string, rest: string)
    requires AllDigits(digits) && (rest == "" || !IsDigit(rest[0]))
    ensures LeadingDigits(digits + rest) == |digits|
  {
    if digits == "" {
      assert digits + rest == rest;
    } else {
      assert digits[0] in digits && forall c | c in digits[1..] :: c in digits;
      CountsDigits(digits[1..], rest);
      assert (digits + rest)[1..] == digits[1..] + rest;
    }
  }

  /** A stamp up to the seconds, with that letter between date and time. */
  function Head(f: Fields, mark: char): string
    requires TwoDigits(f)
  {
    StampLayout(f);
    Stamp(f)[..10] + [mark] + Stamp(f)[11..19]
  }

  /** Where the fields of a stamp stand, whatever follows the seconds. */
  lemma HeadLayout(f: Fields, mark: char, tail: string)
    requires TwoDigits(f)
    ensures var s := Head(f, mark) + tail;
      && |s| == 19 + |tail| && s[4] == '-' && s[7] == '-' && s[10] == mark && s[13] == ':' && s[16] == ':'
      && s[0..4] == Padded(f.year, 4) && s[5..7] == Padded(f.month, 2) && s[8..10] == Padded(f.day, 2)
      && s[11..13] == Padded(f.hour, 2) && s[14..16] == Padded(f.minute, 2) && s[17..19] == Padded(f.second, 2)
      && s[19..] == tail
  {
    hide Padded, Stamp, Clock;
    StampLayout(f);
    ClockLayout(f);
    var s, z := Head(f, mark) + tail, Stamp(f);
    assert z[11..13] == Clock(f)[0..2] && z[14..16] == Clock(f)[3..5] && z[17..19] == Clock(f)[6..8];
    assert z[13] == Clock(f)[2] && z[16] == Clock(f)[5];
    assert s[0..4] == z[0..4] && s[5..7] == z[5..7] && s[8..10] == z[8..10];
    assert s[11..13] == z[11..13] && s[14..16] == z[14..16] && s[17..19] == z[17..19];
  }

  lemma ParseHead(f: Fields)
    requires TwoDigits(f)
    ensures ParseSigned(Padded(f.year, 4)) == Some(f.year)
    ensures ParseUnsigned(Padded(f.month, 2)) == Some(f.month) && ParseUnsigned(Padded(f.day, 2)) == Some(f.day)
    ensures ParseUnsigned(Padded(f.hour, 2)) == Some(f.hour) && ParseUnsigned(Padded(f.minute, 2)) == Some(f.minute)
    ensures ParseUnsigned(Padded(f.second, 2)) == Some(f.second)
  {
    hide Padded, ParseSigned, ParseUnsigned;
    assert Pow10(4) == 10_000 && Pow10(2) == 100;
    ParsePadded(f.year, 4);
    ParsePadded(f.month, 2);
    ParsePadded(f.day, 2);
    ParsePadded(f.hour, 2);
    ParsePadded(f.minute, 2);
    ParsePadded(f.second, 2);
  }

  /**
    Any fields at all, printed with any fraction and any zone, are read if and only if they
    are in range and the zone is one; the fraction has no say, and the offset is taken off.
   */
  lemma ReadsFields(f: Fields, mark: char, fraction: string, zone: string)
    requires TwoDigits(f) && IsFraction(fraction) && zone != "" && zone[0] != '.' && !IsDigit(zone[0])
    ensures ParseRfc3339(Head(f, mark) + fraction + zone) ==
      if mark in "Tt" && Acceptable(f) && ParseZone(zone).Some?
      then Some(InstantOf(f) - ParseZone(zone).value)
      else None
  {
    hide Padded, DaysFromCivil, Stamp, Clock, ParseSigned, ParseUnsigned, YearStart, MonthStart, ParseZone,
      LeadingDigits, Head;
    HeadLayout(f, mark, fraction + zone);
    ParseHead(f);
    var s := Head(f, mark) + fraction + zone;
    assert s == Head(f, mark) + (fraction + zone);
    if fraction == "" {
      assert fraction + zone == zone;
    } else {
      var digits := fraction[1..];
      CountsDigits(digits, zone);
      assert s[20..] == digits + zone;
      assert s[20 + |digits|..] == zone;
    }
    if 1 <= f.month <= 12 {
      DaysFromCivilCounts(Date(f.year, f.month, f.day));
    }
  }

  /** A zone designator: a sign, hours, an optional colon, minutes. */
  function Zone(sign: char, hours: nat, minutes: nat, colon: bool): string
  {
    [sign] + Padded(hours, 2) + (if colon then ":" else "") + Padded(minutes, 2)
  }

  /** Seconds east of Greenwich. */
  function ZoneSeconds(sign: char, hours: nat, minutes: nat): int
  {
    if sign == '+' then hours * 3600 + minutes * 60 else -(hours * 3600 + minutes * 60)
  }

  /** A designator reads as what it says, with or without the colon, whatever follows it. */
  lemma ReadsZone(sign: char, hours: nat, minutes: nat, colon: bool, tail: string)
    requires (sign == '+' || sign == '-') && hours < 100 && minutes < 100
    ensures ParseZone(Zone(sign, hours, minutes, colon) + tail) == Some(ZoneSeconds(sign, hours, minutes))
  {
    hide Padded, ParseSigned;
    assert Pow10(2) == 100;
    ParsePadded(hours, 2);
    ParsePadded(minutes, 2);
    var z := Zone(sign, hours, minutes, colon) + tail;
    var mm := if colon then 4 else 3;
    assert z[1..3] == Padded(hours, 2) && z[mm..mm + 2] == Padded(minutes, 2);
    if !colon {
      PaddedReadsBack(minutes, 2);
      assert z[3] == Padded(minutes, 2)[0] && Padded(minutes, 2)[0] in Padded(minutes, 2);
    }
  }

  /**
    The stamp of a valid instant with any fraction and any numeric zone denotes that instant
    less what the zone is ahead of Greenwich; the letter Z, of either case, is zone zero.
   */
  lemma ReadsOtherZones(f: Fields, mark: char, fraction: string, sign: char, hours: nat, minutes: nat, colon: bool)
    requires ValidFields(f) && TwoDigits(f) && IsFraction(fraction) && mark in "Tt"
    requires (sign == '+' || sign == '-') && hours < 100 && minutes < 100
    ensures ParseRfc3339(Head(f, mark) + fraction + Zone(sign, hours, minutes, colon)) ==
      Some(InstantOf(f) - ZoneSeconds(sign, hours, minutes))
    ensures ParseRfc3339(Head(f, mark) + fraction + "Z") == Some(InstantOf(f))
    ensures ParseRfc3339(Head(f, mark) + fraction + "z") == Some(InstantOf(f))
  {
    hide Padded, Stamp, ParseRfc3339, InstantOf, DaysInMonth;
    MonthsFit(f);
    var zone := Zone(sign, hours, minutes, colon);
    ReadsZone(sign, hours, minutes, colon, "");
    assert zone + "" == zone;
    ReadsFields(f, mark, fraction, zone);
    ReadsFields(f, mark, fraction, "Z");
    ReadsFields(f, mark, fraction, "z");
  }

  /** An instant stamped on the clock of another zone reads back as that instant. */
  lemma OtherZonesRoundTrip(secs: nat, fraction: string, sign: char, hours: nat, minutes: nat, colon: bool)
    requires IsFraction(fraction) && (sign == '+' || sign == '-') && hours < 100 && minutes < 100
    requires 0 <= secs + ZoneSeconds(sign, hours, minutes) < YEAR_10000
    ensures var local := UnixToRfc3339(secs + ZoneSeconds(sign, hours, minutes));
      |local| == 20 && ParseRfc3339(local[..19] + fraction + Zone(sign, hours, minutes, colon)) == Some(secs)
  {
    hide Stamp, ParseRfc3339, FieldsOf, InstantOf, DaysInMonth, Zone;
    var local := secs + ZoneSeconds(sign, hours, minutes);
    FieldsAreRight(local);
    FourDigitYears(local);
    MonthsFit(FieldsOf(local));
    ReadsOtherZones(FieldsOf(local), 'T', fraction, sign, hours, minutes, colon);
    StampLayout(FieldsOf(local));
    assert Head(FieldsOf(local), 'T') == UnixToRfc3339(local)[..19];
  }

  /** What every readable stamp has: its marks in place, numbers between them, and a zone. */
  lemma ReadableIsLaidOut(s: string)
    requires ParseRfc3339(s).Some?
    ensures |s| >= 20 && s[4] == '-' && s[7] == '-' && s[10] in "Tt" && s[13] == ':' && s[16] == ':' && s[19] in "Zz+-."
    ensures s[19] == '.' ==> |s| > 21 && IsDigit(s[20])
    ensures forall i | i in [6, 9, 12, 15, 18] :: IsDigit(s[i])
  {
    hide DaysFromCivil;
    forall i | i in [6, 9, 12, 15, 18]
      ensures IsDigit(s[i])
    {
      LastIsDigit(s[i - 1..i + 1]);
    }
  }

  lemma LastIsDigit(s: string)
    requires |s| == 2 && ParseUnsigned(s).Some?
    ensures IsDigit(s[1])
  {
    assert s[1..][0] == s[1];
    assert s[1] in s && s[1] in s[1..];
  }

  // ---------------------------------------------------------------------------
  // Distinct instants, distinct stamps
  // ---------------------------------------------------------------------------

  lemma GroupInjective(n: nat, m: nat, mark: char, r1: string, r2: string)
    requires n < 100 && m < 100 && Group(n, mark, r1) == Group(m, mark, r2)
    ensures n == m && r1 == r2
  {
    hide Padded, Group;
    GroupLayout(n, mark, r1);
    GroupLayout(m, mark, r2);
    PaddedReadsBack(n, 2);
    PaddedReadsBack(m, 2);
  }

  lemma StampInjective(f: Fields, g: Fields)
    requires ValidFields(f) && ValidFields(g) && Stamp(f) == Stamp(g)
    ensures f == g
  {
    hide Padded, Group, DaysInMonth;
    assert f.day < 100 && g.day < 100 by { MonthsFit(f); MonthsFit(g); }
    var fc, gc := Clock(f), Clock(g);
    ClockLayout(f);
    ClockLayout(g);
    GroupLayout(f.day, 'T', fc);
    GroupLayout(g.day, 'T', gc);
    var fd, gd := Group(f.day, 'T', fc), Group(g.day, 'T', gc);
    GroupLayout(f.month, '-', fd);
    GroupLayout(g.month, '-', gd);
    var fy, gy := Padded(f.year, 4), Padded(g.year, 4);
    assert |fy| == |gy|;
    assert Stamp(f)[..|fy|] == fy && Stamp(g)[..|gy|] == gy;
    assert Stamp(f)[|fy| + 1..] == Group(f.month, '-', fd) && Stamp(g)[|gy| + 1..] == Group(g.month, '-', gd);
    PaddedReadsBack(f.year, 4);
    PaddedReadsBack(g.year, 4);
    GroupInjective(f.month, g.month, '-', fd, gd);
    GroupInjective(f.day, g.day, 'T', fc, gc);
    ClockInjective(f, g);
  }

  lemma MonthsFit(f: Fields)
    requires ValidFields(f)
    ensures f.day <= 31
  {
  }

  lemma ClockInjective(f: Fields, g: Fields)
    requires 0 <= f.hour < 100 && 0 <= f.minute < 100 && 0 <= f.second < 100
    requires 0 <= g.hour < 100 && 0 <= g.minute < 100 && 0 <= g.second < 100
    requires Clock(f) == Clock(g)
    ensures f.hour == g.hour && f.minute == g.minute && f.second == g.second
  {
    hide Padded, Group;
    var fs, gs := Group(f.second, 'Z', ""), Group(g.second, 'Z', "");
    GroupInjective(f.hour, g.hour, ':', Group(f.minute, ':', fs), Group(g.minute, ':', gs));
    GroupInjective(f.minute, g.minute, ':', fs, gs);
    GroupInjective(f.second, g.second, 'Z', "", "");
  }

  /** No two instants, however distant, share a stamp. */
  lemma FormatterIsInjective(a: nat, b: nat)
    requires UnixToRfc3339(a) == UnixToRfc3339(b)
    ensures a == b
  {
    hide FieldsOf, Stamp;
    FieldsAreRight(a);
    FieldsAreRight(b);
    StampInjective(FieldsOf(a), FieldsOf(b));
  }

  // ---------------------------------------------------------------------------
  // Stamps sort as their instants do
  // ---------------------------------------------------------------------------

  ghost predicate LexLess(a: string, b: string)
  {
    if a == "" then b != ""
    else b != "" && (a[0] < b[0] || (a[0] == b[0] && LexLess(a[1..], b[1..])))
  }

  lemma {:induction false} LexPrefix(a: string, b: string, x: string, y: string)
    requires |a| == |b|
    ensures LexLess(a + x, b + y) <==> LexLess(a, b) || (a == b && LexLess(x, y))
  {
    if a == "" {
      assert a + x == x && b + y == y;
    } else {
      assert (a + x)[1..] == a[1..] + x && (b + y)[1..] == b[1..] + y;
      assert (a + x)[0] == a[0] && (b + y)[0] == b[0];
      LexPrefix(a[1..], b[1..], x, y);
      assert a == [a[0]] + a[1..] && b == [b[0]] + b[1..];
    }
  }

  lemma {:induction false} LexPadded(x: nat, y: nat, w: nat)
    requires x < Pow10(w) && y < Pow10(w)
    ensures LexLess(Padded(x, w), Padded(y, w)) <==> x < y
    ensures Padded(x, w) == Padded(y, w) <==> x == y
    decreases w
  {
    if w > 0 {
      LexPadded(x / 10, y / 10, w - 1);
      PaddedReadsBack(x / 10, w - 1);
      PaddedReadsBack(y / 10, w - 1);
      var dx, dy := [Digit(x % 10)], [Digit(y % 10)];
      LexPrefix(Padded(x / 10, w - 1), Padded(y / 10, w - 1), dx, dy);
      assert LexLess(dx, dy) <==> x % 10 < y % 10;
      PaddedReadsBack(x, w);
      PaddedReadsBack(y, w);
    }
  }

  lemma LexGroup(n: nat, m: nat, mark: char, r1: string, r2: string)
    requires n < 100 && m < 100
    ensures LexLess(Group(n, mark, r1), Group(m, mark, r2)) <==> n < m || (n == m && LexLess(r1, r2))
  {
    hide Padded;
    assert Pow10(2) == 100;
    PaddedReadsBack(n, 2);
    PaddedReadsBack(m, 2);
    LexPadded(n, m, 2);
    LexMark(Padded(n, 2), Padded(m, 2), mark, r1, r2);
  }

  lemma LexMark(a: string, b: string, mark: char, r1: string, r2: string)
    requires |a| == |b|
    ensures LexLess(a + [mark] + r1, b + [mark] + r2) <==> LexLess(a, b) || (a == b && LexLess(r1, r2))
  {
    LexPrefix(a + [mark], b + [mark], r1, r2);
    LexPrefix(a, b, [mark], [mark]);
    assert a + [mark] == b + [mark] <==> a == b by {
      assert (a + [mark])[..|a|] == a && (b + [mark])[..|b|] == b;
    }
  }

  /** Field by field, most significant first. */
  ghost predicate Precedes(f: Fields, g: Fields)
  {
    || Earlier(Date(f.year, f.month, f.day), Date(g.year, g.month, g.day))
    || (f.year == g.year && f.month == g.month && f.day == g.day &&
        (f.hour < g.hour || (f.hour == g.hour &&
         (f.minute < g.minute || (f.minute == g.minute && f.second < g.second)))))
  }

  lemma LexClock(f: Fields, g: Fields)
    requires 0 <= f.hour < 100 && 0 <= f.minute < 100 && 0 <= f.second < 100
    requires 0 <= g.hour < 100 && 0 <= g.minute < 100 && 0 <= g.second < 100
    ensures LexLess(Clock(f), Clock(g)) <==>
      f.hour < g.hour || (f.hour == g.hour && (f.minute < g.minute || (f.minute == g.minute && f.second < g.second)))
  {
    hide Group;
    var fs, gs := Group(f.second, 'Z', ""), Group(g.second, 'Z', "");
    LexGroup(f.second, g.second, 'Z', "", "");
    LexGroup(f.minute, g.minute, ':', fs, gs);
    LexGroup(f.hour, g.hour, ':', Group(f.minute, ':', fs), Group(g.minute, ':', gs));
  }

  lemma LexStamp(f: Fields, g: Fields)
    requires ValidFields(f) && ValidFields(g) && f.year < 10_000 && g.year < 10_000
    ensures LexLess(Stamp(f), Stamp(g)) <==> Precedes(f, g)
  {
    hide Padded, Group, Clock, DaysInMonth, LexLess;
    MonthsFit(f);
    MonthsFit(g);
    assert Pow10(4) == 10_000;
    PaddedReadsBack(f.year, 4);
    PaddedReadsBack(g.year, 4);
    LexPadded(f.year, g.year, 4);
    var fd, gd := Group(f.day, 'T', Clock(f)), Group(g.day, 'T', Clock(g));
    LexMark(Padded(f.year, 4), Padded(g.year, 4), '-', Group(f.month, '-', fd), Group(g.month, '-', gd));
    LexGroup(f.month, g.month, '-', fd, gd);
    LexGroup(f.day, g.day, 'T', Clock(f), Clock(g));
    LexClock(f, g);
  }

  lemma InstantsFollowFields(f: Fields, g: Fields)
    requires ValidFields(f) && ValidFields(g)
    ensures Precedes(f, g) ==> InstantOf(f) < InstantOf(g)
  {
    hide DayCount, ValidDate;
    CountIsMonotone(Date(f.year, f.month, f.day), Date(g.year, g.month, g.day));
  }

  /** Before the year 10000 the lexicographic order of stamps is the order of instants. */
  lemma StampsSortAsInstants(a: nat, b: nat)
    requires a < YEAR_10000 && b < YEAR_10000
    ensures LexLess(UnixToRfc3339(a), UnixToRfc3339(b)) <==> a < b
  {
    hide FieldsOf, Stamp, LexLess;
    var f, g := FieldsOf(a), FieldsOf(b);
    FieldsAreRight(a);
    FieldsAreRight(b);
    FourDigitYears(a);
    FourDigitYears(b);
    LexStamp(f, g);
    InstantsFollowFields(f, g);
    InstantsFollowFields(g, f);
  }

  /**
    A deadline before the year 10000 reads back as the present plus the lifetime, sorts
    after the present, and is past exactly from then on. A later one cannot be read, and
    is never past.
   */
  lemma ExpiryIsHonoured(now: int, ttl: nat, later: int)
    ensures 0 <= now && now + ttl < 0x1_0000_0000_0000_0000 ==> Deadline(now, ttl) == now + ttl
    ensures now < 0 ==> Deadline(now, ttl) == Deadline(0, ttl)
    ensures now + ttl >= 0xFFFF_FFFF_FFFF_FFFF ==> Deadline(now, ttl) == 0xFFFF_FFFF_FFFF_FFFF
    ensures var deadline := Deadline(now, ttl);
      && ParseRfc3339(RequestExpiry(now, ttl)) == (if deadline < YEAR_10000 then Some(deadline) else None)
      && (RequestExpired(RequestExpiry(now, ttl), later) <==> deadline < YEAR_10000 && deadline <= later)
      && (0 <= now && deadline < YEAR_10000 ==>
            (LexLess(UnixToRfc3339(now), RequestExpiry(now, ttl)) <==> 0 < ttl))
  {
    hide UnixToRfc3339, ParseRfc3339, LexLess;
    RoundTrip(Deadline(now, ttl));
    if 0 <= now && Deadline(now, ttl) < YEAR_10000 {
      StampsSortAsInstants(now, Deadline(now, ttl));
    }
  }
}
