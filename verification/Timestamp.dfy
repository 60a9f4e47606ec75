/** The text form of a log timestamp (src-tauri/src/logger.rs). */
module Timestamps {
  import opened Calendar

  // ---------------------------------------------------------------- decimal text

  function Digit(n: nat): char
    requires n < 10
  {
    "0123456789"[n]
  }

  function Decimal(n: nat): (s: string)
    ensures s != ""
  {
    if n < 10 then [Digit(n)] else Decimal(n / 10) + [Digit(n % 10)]
  }

  function Zeros(n: nat): string {
    seq(n, i => '0')
  }

  /** `{:0width}`: padded with zeros after the sign. */
  function Padded(n: int, width: nat): string {
    var digits := Decimal(if n < 0 then -n else n);
    var sign := if n < 0 then "-" else "";
    var used := |sign| + |digits|;
    sign + Zeros(if used < width then width - used else 0) + digits
  }

  function DigitValue(c: char): nat {
    if '0' <= c <= '9' then c as nat - '0' as nat else 0
  }

  function Value(s: string): nat {
    if s == "" then 0 else Value(s[..|s| - 1]) * 10 + DigitValue(s[|s| - 1])
  }

  lemma {:induction false} ValueOfDecimal(n: nat)
    ensures Value(Decimal(n)) == n
  {
    if n >= 10 {
      ValueOfDecimal(n / 10);
      assert Decimal(n)[..|Decimal(n)| - 1] == Decimal(n / 10);
    } else {
      assert [Digit(n)][..0] == "";
    }
  }

  lemma {:induction false} ValueOfZeros(n: nat, s: string)
    ensures Value(Zeros(n) + s) == Value(s)
  {
    if s != "" {
      ValueOfZeros(n, s[..|s| - 1]);
      assert (Zeros(n) + s)[..|Zeros(n) + s| - 1] == Zeros(n) + s[..|s| - 1];
    } else if n > 0 {
      ValueOfZeros(n - 1, "");
      assert (Zeros(n) + "")[..n - 1] == Zeros(n - 1) + "";
    }
  }

  lemma {:induction false} DecimalLength(n: nat)
    ensures n < 10 ==> |Decimal(n)| == 1
    ensures 10 <= n < 100 ==> |Decimal(n)| == 2
    ensures 100 <= n < 1000 ==> |Decimal(n)| == 3
  {
    if n >= 10 {
      DecimalLength(n / 10);
    }
  }

  lemma ValueOfPadded(n: nat, width: nat)
    ensures Value(Padded(n, width)) == n
    ensures width == 2 && n < 100 ==> |Padded(n, width)| == 2
    ensures width == 3 && n < 1000 ==> |Padded(n, width)| == 3
  {
    var digits := Decimal(n);
    ValueOfDecimal(n);
    DecimalLength(n);
    var pad := if |digits| < width then width - |digits| else 0;
    ValueOfZeros(pad, digits);
    assert Padded(n, width) == Zeros(pad) + digits;
  }

  lemma {:induction false} OnlyDigits(n: nat)
    ensures forall i | 0 <= i < |Decimal(n)| :: '0' <= Decimal(n)[i] <= '9'
  {
    if n >= 10 {
      OnlyDigits(n / 10);
    }
  }

  /** A number with its sign. */
  function SignedValue(s: string): int {
    if s != "" && s[0] == '-' then 0 - Value(s[1..]) else Value(s)
  }

  lemma SignedValueOfPadded(n: int, width: nat)
    ensures SignedValue(Padded(n, width)) == n
  {
    var digits, used := Decimal(if n < 0 then -n else n), if n < 0 then 1 else 0;
    var pad := if used + |digits| < width then width - used - |digits| else 0;
    ValueOfDecimal(if n < 0 then -n else n);
    ValueOfZeros(pad, digits);
    if n < 0 {
      WithSign(Zeros(pad) + digits);
      assert Padded(n, width) == "-" + (Zeros(pad) + digits);
    } else {
      OnlyDigits(n);
      WithoutSign(pad, digits);
      assert Padded(n, width) == Zeros(pad) + digits;
    }
  }

  lemma WithSign(s: string)
    ensures SignedValue("-" + s) == 0 - Value(s)
  {
    assert ("-" + s)[1..] == s;
  }

  lemma WithoutSign(pad: nat, digits: string)
    requires digits != "" && '0' <= digits[0] <= '9'
    ensures SignedValue(Zeros(pad) + digits) == Value(Zeros(pad) + digits)
  {
    assert (Zeros(pad) + digits)[0] == if pad > 0 then '0' else digits[0];
  }

  // ---------------------------------------------------------------- fmt_utc

  const TWO_63 := 0x8000_0000_0000_0000

  /** The source's cast of the seconds to a signed 64-bit integer wraps around. */
  function WrapI64(n: nat): int {
    (n + TWO_63) % (2 * TWO_63) - TWO_63
  }

  function FmtUtc(ms: nat): string {
    var secs := WrapI64(ms / 1000);
    var milli := ms % 1000;
    var days, rem := secs / 86_400, secs % 86_400;
    var date := CivilFromDays(days);
    Padded(date.year, 4) + TextAfterYear(date.month, date.day, rem / 3600, rem % 3600 / 60, rem % 60, milli)
  }

  function TextAfterYear(month: int, day: int, hour: int, min: int, sec: int, milli: int): string {
    Joined(Padded(month, 2), Padded(day, 2), Padded(hour, 2), Padded(min, 2), Padded(sec, 2), Padded(milli, 3))
  }

  function Joined(month: string, day: string, hour: string, min: string, sec: string, milli: string): string {
    "-" + month + "-" + day + "T" + hour + ":" + min + ":" + sec + "." + milli + "Z"
  }

  lemma JoinedParts(month: string, day: string, hour: string, min: string, sec: string, milli: string)
    requires |month| == |day| == |hour| == |min| == |sec| == 2 && |milli| == 3
    ensures var t := Joined(month, day, hour, min, sec, milli);
            && |t| == 20 && t[1..3] == month && t[4..6] == day && t[7..9] == hour
            && t[10..12] == min && t[13..15] == sec && t[16..19] == milli
  {
  }

  /** Reads a timestamp from the end, where every field has its place. */
  function ReadUtc(s: string): int
    requires |s| >= 20
  {
    var y, t := s[..|s| - 20], s[|s| - 20..];
    var month := Value(t[1..3]);
    var days := DayNumber(Date(SignedValue(y), if 1 <= month <= 12 then month else 1, Value(t[4..6])));
    ((days * 24 + Value(t[7..9])) * 60 + Value(t[10..12])) * 60_000 + Value(t[13..15]) * 1000 + Value(t[16..19])
  }

  /** Punctuated as a timestamp, behind a year of four digits or more. */
  predicate IsStamp(s: string) {
    && |s| >= 24
    && var t := s[|s| - 20..];
       && t[0] == '-' && t[3] == '-' && t[6] == 'T' && t[9] == ':' && t[12] == ':' && t[15] == '.' && t[19] == 'Z'
  }

  lemma IsJoined(year: string, month: string, day: string, hour: string, min: string, sec: string, milli: string)
    requires |year| >= 4 && |month| == |day| == |hour| == |min| == |sec| == 2 && |milli| == 3
    ensures IsStamp(year + Joined(month, day, hour, min, sec, milli))
  {
    var t := Joined(month, day, hour, min, sec, milli);
    assert (year + t)[|year|..] == t;
  }

  lemma FieldsInPlace(month: nat, day: nat, hour: nat, min: nat, sec: nat, milli: nat)
    requires month < 100 && day < 100 && hour < 100 && min < 100 && sec < 100 && milli < 1000
    ensures var t := TextAfterYear(month, day, hour, min, sec, milli);
            && |t| == 20
            && Value(t[1..3]) == month && Value(t[4..6]) == day && Value(t[7..9]) == hour
            && Value(t[10..12]) == min && Value(t[13..15]) == sec && Value(t[16..19]) == milli
  {
    ValueOfPadded(month, 2);
    ValueOfPadded(day, 2);
    ValueOfPadded(hour, 2);
    ValueOfPadded(min, 2);
    ValueOfPadded(sec, 2);
    ValueOfPadded(milli, 3);
    JoinedParts(Padded(month, 2), Padded(day, 2), Padded(hour, 2), Padded(min, 2), Padded(sec, 2), Padded(milli, 3));
  }

  /** The clock fields of a number of seconds recombine. */
  lemma ClockOfDay(rem: nat)
    requires rem < 86_400
    ensures var hour, min, sec := rem / 3600, rem % 3600 / 60, rem % 60;
            hour < 24 && min < 60 && sec < 60 && (hour * 60 + min) * 60 + sec == rem
  {
    var hour, left := rem / 3600, rem % 3600;
    var min := left / 60;
    assert rem == hour * 3600 + left && left == min * 60 + left % 60;
    assert rem == (hour * 60 + min) * 60 + left % 60;
  }

  lemma ClockRecombines(secs: int)
    ensures var days, rem := secs / 86_400, secs % 86_400;
            var hour, min, sec := rem / 3600, rem % 3600 / 60, rem % 60;
            hour < 24 && min < 60 && sec < 60 && ((days * 24 + hour) * 60 + min) * 60 + sec == secs
  {
    ClockOfDay(secs % 86_400);
    assert secs == secs / 86_400 * 86_400 + secs % 86_400;
  }

  lemma StampIs(year: string, month: nat, day: nat, hour: nat, min: nat, sec: nat, milli: nat)
    requires |year| >= 4 && month < 100 && day < 100 && hour < 100 && min < 100 && sec < 100 && milli < 1000
    ensures IsStamp(year + TextAfterYear(month, day, hour, min, sec, milli))
  {
    ValueOfPadded(month, 2);
    ValueOfPadded(day, 2);
    ValueOfPadded(hour, 2);
    ValueOfPadded(min, 2);
    ValueOfPadded(sec, 2);
    ValueOfPadded(milli, 3);
    IsJoined(year, Padded(month, 2), Padded(day, 2), Padded(hour, 2), Padded(min, 2), Padded(sec, 2), Padded(milli, 3));
  }

  /** What is printed reads back as the seconds after their cast to 64 signed bits, and the milliseconds. */
  lemma FmtUtcReadsBack(ms: nat)
    ensures IsStamp(FmtUtc(ms)) && ReadUtc(FmtUtc(ms)) == WrapI64(ms / 1000) * 1000 + ms % 1000
  {
    var secs, milli := WrapI64(ms / 1000), ms % 1000;
    ClockRecombines(secs);
    var days, rem := secs / 86_400, secs % 86_400;
    var date := DateOfDay(days);
    CivilIsCalendar(days);
    NumberOfDay(days);
    var hour, min, sec := rem / 3600, rem % 3600 / 60, rem % 60;
    var year, t := Padded(date.year, 4), TextAfterYear(date.month, date.day, hour, min, sec, milli);
    FieldsInPlace(date.month, date.day, hour, min, sec, milli);
    SignedValueOfPadded(date.year, 4);
    assert FmtUtc(ms) == year + t;
    assert |year| >= 4;
    StampIs(year, date.month, date.day, hour, min, sec, milli);
    ReadJoined(year, t, date, hour, min, sec, milli);
  }

  lemma WrapsIff(n: nat)
    ensures WrapI64(n) == n <==> n < TWO_63
  {
  }

  /** The printed fields recombine to the milliseconds that were printed if and only if their seconds fit 64
      signed bits; in particular two such instants never print alike. */
  lemma FmtUtcRoundTripIff(ms: nat)
    ensures |FmtUtc(ms)| >= 20 && (ReadUtc(FmtUtc(ms)) == ms <==> ms / 1000 < TWO_63)
  {
    FmtUtcReadsBack(ms);
    WrapsIff(ms / 1000);
  }

  lemma ReadJoined(year: string, t: string, date: Date, hour: nat, min: nat, sec: nat, milli: nat)
    requires ValidDate(date) && |t| == 20 && SignedValue(year) == date.year
    requires Value(t[1..3]) == date.month && Value(t[4..6]) == date.day && Value(t[7..9]) == hour
    requires Value(t[10..12]) == min && Value(t[13..15]) == sec && Value(t[16..19]) == milli
    ensures ReadUtc(year + t) == ((DayNumber(date) * 24 + hour) * 60 + min) * 60_000 + sec * 1000 + milli
  {
    assert (year + t)[..|year + t| - 20] == year && (year + t)[|year + t| - 20..] == t;
  }
}
