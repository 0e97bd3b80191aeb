/** i3 Timestamps: the local date and time with an explicit numeric UTC offset (section 5.6 of
    RFC 3339), as text and back. */
module Timestamps {
  import opened Prelude

  /** An aware datetime after `astimezone()`; `offset` is its UTC offset in seconds. */
  datatype LocalTime = LocalTime(year: int, month: int, day: int, hour: int, minute: int,
                                 second: int, micro: int, offset: int)

  predicate Leap(y: int) {
    y % 4 == 0 && (y % 100 != 0 || y % 400 == 0)
  }

  function DaysIn(y: int, m: int): int {
    if m == 2 then (if Leap(y) then 29 else 28)
    else if m in {4, 6, 9, 11} then 30
    else 31
  }

  function DaysBeforeMonth(y: int, m: int): int
    decreases m
  {
    if m <= 1 then 0 else DaysBeforeMonth(y, m - 1) + DaysIn(y, m - 1)
  }

  function LeapsUpTo(y: int): int {
    y / 4 - y / 100 + y / 400
  }

  /** Microseconds since the start of year 1 in UTC. */
  function Instant(t: LocalTime): int {
    var days := 365 * (t.year - 1) + LeapsUpTo(t.year - 1) + DaysBeforeMonth(t.year, t.month) + t.day - 1;
    (((days * 24 + t.hour) * 60 + t.minute) * 60 + t.second - t.offset) * 1_000_000 + t.micro
  }

  /** What a datetime can hold. */
  predicate InRange(t: LocalTime) {
    && 1 <= t.year <= 9999 && 1 <= t.month <= 12 && 1 <= t.day <= DaysIn(t.year, t.month)
    && 0 <= t.hour < 24 && 0 <= t.minute < 60 && 0 <= t.second < 60 && 0 <= t.micro < 1_000_000
    && -86_400 < t.offset < 86_400
  }

  // ---------------------------------------------------------------- formatting

  function DigitChar(d: nat): char
    requires d < 10
  {
    ('0' as int + d) as char
  }

  /** Decimal digits without padding, as `%Y` prints a year where the C library and the Python
      version do not pad it. */
  function Decimal(n: nat): string {
    if n < 10 then [DigitChar(n)] else Decimal(n / 10) + [DigitChar(n % 10)]
  }

  /** Exactly `width` digits. */
  function Fixed(n: nat, width: nat): string {
    if width == 0 then "" else Fixed(n / 10, width - 1) + [DigitChar(n % 10)]
  }

  /** `rstrip("0")` */
  function StripZeros(s: string): string {
    if s != "" && s[|s| - 1] == '0' then StripZeros(s[..|s| - 1]) else s
  }

  function Abs(n: int): nat {
    if n < 0 then -n else n
  }

  function Fraction(micro: nat): string {
    if micro == 0 then "" else "." + StripZeros(Fixed(micro, 6))
  }

  function SignedHours(sign: char, hh: nat, mm: nat): string {
    [sign] + Fixed(hh, 2) + ":" + Fixed(mm, 2)
  }

  function OffsetText(offset: int): string {
    var total := Abs(offset);
    SignedHours(if offset >= 0 then '+' else '-', total / 3600, total % 3600 / 60)
  }

  /** Three numbers: `%Y-%m-%d` or `%H:%M:%S`. */
  function Joined(a: string, b: string, c: string, sep: char): string {
    a + [sep] + b + [sep] + c
  }

  function DateTimeText(t: LocalTime): string
    requires InRange(t)
  {
    Joined(Decimal(t.year), Fixed(t.month, 2), Fixed(t.day, 2), '-') + "T"
    + Joined(Fixed(t.hour, 2), Fixed(t.minute, 2), Fixed(t.second, 2), ':')
  }

  /** `format_i3` */
  function FormatI3(t: LocalTime): string
    requires InRange(t)
  {
    DateTimeText(t) + Fraction(t.micro) + OffsetText(t.offset)
  }

  // ---------------------------------------------------------------- parsing

  predicate IsDigit(c: char) {
    '0' <= c <= '9'
  }

  predicate AllDigits(s: string) {
    forall i :: 0 <= i < |s| ==> IsDigit(s[i])
  }

  function Number(s: string): nat
    requires AllDigits(s)
  {
    if s == "" then 0 else Number(s[..|s| - 1]) * 10 + (s[|s| - 1] as int - '0' as int)
  }

  /** Digits `width`, 2 and 2 long, with a separator between them. */
  predicate TripleShape(s: string, width: nat, sep: char) {
    && |s| == width + 6
    && AllDigits(s[..width]) && s[width] == sep
    && AllDigits(s[width + 1..width + 3]) && s[width + 3] == sep
    && AllDigits(s[width + 4..])
  }

  function Triple(s: string, width: nat, sep: char): (int, int, int)
    requires TripleShape(s, width, sep)
  {
    (Number(s[..width]), Number(s[width + 1..width + 3]), Number(s[width + 4..]))
  }

  /** YYYY-MM-DDTHH:MM:SS */
  predicate DateTimeShape(s: string) {
    |s| == 19 && TripleShape(s[..10], 4, '-') && s[10] == 'T' && TripleShape(s[11..], 2, ':')
  }

  /** ±HH:MM */
  predicate OffsetShape(s: string) {
    |s| == 6 && (s[0] == '+' || s[0] == '-') && AllDigits(s[1..3]) && s[3] == ':' && AllDigits(s[4..6])
  }

  predicate FractionShape(s: string) {
    s == "" || (|s| >= 2 && s[0] == '.' && AllDigits(s[1..]))
  }

  /** The grammar that discrepancy reports demand of a timestamp. Python's `$` also matches
      before a final newline. */
  predicate MatchesGrammar(s: string) {
    MatchesExactly(s) || (s != "" && s[|s| - 1] == '\n' && MatchesExactly(s[..|s| - 1]))
  }

  predicate MatchesExactly(s: string) {
    |s| >= 25 && DateTimeShape(s[..19]) && FractionShape(s[19..|s| - 6]) && OffsetShape(s[|s| - 6..])
  }

  /** Six digits of the fraction: shorter ones are filled up, longer ones cut. */
  function Micros(digits: string): nat
    requires AllDigits(digits)
  {
    if |digits| >= 6 then Number(digits[..6]) else Number(digits) * Pow10(6 - |digits|)
  }

  function Pow10(n: nat): nat {
    if n == 0 then 1 else 10 * Pow10(n - 1)
  }

  function ParseOffset(s: string): int
    requires OffsetShape(s)
  {
    (if s[0] == '-' then -1 else 1) * (Number(s[1..3]) * 3600 + Number(s[4..6]) * 60)
  }

  /** `parse_i3` on the texts of RFC 3339 with a numeric offset or a final Z. */
  function ParseI3(s: string): Option<LocalTime> {
    if s != "" && s[|s| - 1] == 'Z' then ParseParts(s[..|s| - 1], "+00:00")
    else if |s| < 25 then None
    else ParseParts(s[..|s| - 6], s[|s| - 6..])
  }

  function ParseParts(s: string, offset: string): Option<LocalTime> {
    if |s| < 19 || !DateTimeShape(s[..19]) || !FractionShape(s[19..]) || !OffsetShape(offset) then None
    else Assembled(s[..19], s[19..], offset)
  }

  function Assembled(dateTime: string, fraction: string, offset: string): Option<LocalTime>
    requires DateTimeShape(dateTime) && FractionShape(fraction) && OffsetShape(offset)
  {
    var (year, month, day) := Triple(dateTime[..10], 4, '-');
    var (hour, minute, second) := Triple(dateTime[11..], 2, ':');
    var t := LocalTime(year, month, day, hour, minute, second,
                       if fraction == "" then 0 else Micros(fraction[1..]), ParseOffset(offset));
    if InRange(t) then Some(t) else None
  }

  // ---------------------------------------------------------------- round trip

  lemma FixedIsNumber(n: nat, width: nat)
    requires n < Pow10(width)
    ensures |Fixed(n, width)| == width && AllDigits(Fixed(n, width)) && Number(Fixed(n, width)) == n
  {
    if width > 0 {
      FixedIsNumber(n / 10, width - 1);
      var s := Fixed(n, width);
      assert s[..|s| - 1] == Fixed(n / 10, width - 1);
    }
  }

  lemma YearIsFixed(y: nat)
    requires 1000 <= y <= 9999
    ensures Decimal(y) == Fixed(y, 4)
  {
    assert Decimal(y) == Decimal(y / 10) + [DigitChar(y % 10)];
    assert Decimal(y / 10) == Decimal(y / 10 / 10) + [DigitChar(y / 10 % 10)];
    assert Decimal(y / 100) == Decimal(y / 100 / 10) + [DigitChar(y / 100 % 10)];
    assert y / 10 / 10 == y / 100 && y / 100 / 10 == y / 1000 && y / 1000 < 10;
    assert Decimal(y / 1000) == [DigitChar(y / 1000)];
    assert Fixed(y, 4) == Fixed(y / 10, 3) + [DigitChar(y % 10)];
    assert Fixed(y / 10, 3) == Fixed(y / 10 / 10, 2) + [DigitChar(y / 10 % 10)];
    assert Fixed(y / 100, 2) == Fixed(y / 100 / 10, 1) + [DigitChar(y / 100 % 10)];
    assert Fixed(y / 1000, 1) == Fixed(y / 1000 / 10, 0) + [DigitChar(y / 1000 % 10)];
  }

  /** Stripping trailing zeros and filling up again. */
  lemma StripThenFill(s: string, width: nat)
    requires |s| <= width && AllDigits(s)
    ensures AllDigits(StripZeros(s)) && |StripZeros(s)| <= |s|
    ensures Number(StripZeros(s)) * Pow10(width - |StripZeros(s)|) == Number(s) * Pow10(width - |s|)
    ensures StripZeros(s) == "" <==> Number(s) == 0
  {
    if s != "" && s[|s| - 1] == '0' {
      var front := s[..|s| - 1];
      StripThenFill(front, width);
      assert Number(s) == Number(front) * 10;
      assert Pow10(width - |front|) == 10 * Pow10(width - |s|);
      assert StripZeros(s) == StripZeros(front);
      hide *;
      Regroup(Number(front), Pow10(width - |s|));
    }
  }

  lemma Regroup(a: int, b: int)
    ensures a * (10 * b) == a * 10 * b
  {
  }

  lemma FractionReads(micro: nat)
    requires micro < 1_000_000
    ensures FractionShape(Fraction(micro))
    ensures micro != 0 ==> Micros(Fraction(micro)[1..]) == micro
  {
    if micro != 0 {
      assert Pow10(6) == 1_000_000;
      FixedIsNumber(micro, 6);
      StripThenFill(Fixed(micro, 6), 6);
      assert Pow10(0) == 1;
      hide Fixed, Number, StripZeros, Pow10, AllDigits;
      var f := StripZeros(Fixed(micro, 6));
      assert Fraction(micro)[1..] == f;
      if |f| == 6 {
        assert f[..6] == f;
      }
    }
  }

  /** The offset that survives: whole minutes, cut towards zero. */
  function WholeMinutes(offset: int): int {
    (if offset < 0 then -1 else 1) * (Abs(offset) / 60 * 60)
  }

  lemma OffsetReads(offset: int)
    requires -86_400 < offset < 86_400
    ensures OffsetShape(OffsetText(offset)) && ParseOffset(OffsetText(offset)) == WholeMinutes(offset)
  {
    var total := Abs(offset);
    assert total / 3600 < 24 && total % 3600 / 60 < 60;
    assert total / 3600 * 3600 + total % 3600 / 60 * 60 == total / 60 * 60;
    SignedHoursRead(if offset >= 0 then '+' else '-', total / 3600, total % 3600 / 60);
  }

  lemma SignedHoursRead(sign: char, hh: nat, mm: nat)
    requires hh < 100 && mm < 100 && (sign == '+' || sign == '-')
    ensures var s := SignedHours(sign, hh, mm);
      OffsetShape(s) && Number(s[1..3]) == hh && Number(s[4..6]) == mm && s[0] == sign
  {
    assert Pow10(2) == 100;
    FixedIsNumber(hh, 2);
    FixedIsNumber(mm, 2);
    hide Fixed, Number, AllDigits, Pow10;
    var x, y := Fixed(hh, 2), Fixed(mm, 2);
    var s := SignedHours(sign, hh, mm);
    assert s[1..3] == x && s[4..6] == y;
  }

  lemma JoinedReads(a: nat, b: nat, c: nat, width: nat, sep: char)
    requires a < Pow10(width) && b < 100 && c < 100
    ensures var s := Joined(Fixed(a, width), Fixed(b, 2), Fixed(c, 2), sep);
      TripleShape(s, width, sep) && Triple(s, width, sep) == (a, b, c)
  {
    assert Pow10(2) == 100;
    FixedIsNumber(a, width);
    FixedIsNumber(b, 2);
    FixedIsNumber(c, 2);
    hide Fixed, Number, AllDigits, Pow10, Joined;
    JoinedSlices(Fixed(a, width), Fixed(b, 2), Fixed(c, 2), sep);
  }

  lemma JoinedSlices(a: string, b: string, c: string, sep: char)
    ensures var s, n := Joined(a, b, c, sep), |a| + |b| + 2;
      && |s| == n + |c|
      && s[..|a|] == a && s[|a|] == sep && s[|a| + 1..n - 1] == b && s[n - 1] == sep && s[n..] == c
  {
  }

  lemma DateTimeReads(t: LocalTime)
    requires InRange(t) && 1000 <= t.year
    ensures var s := DateTimeText(t);
      && DateTimeShape(s)
      && Triple(s[..10], 4, '-') == (t.year, t.month, t.day)
      && Triple(s[11..], 2, ':') == (t.hour, t.minute, t.second)
  {
    assert Pow10(2) == 100 && Pow10(4) == 10_000;
    YearIsFixed(t.year);
    JoinedReads(t.year, t.month, t.day, 4, '-');
    JoinedReads(t.hour, t.minute, t.second, 2, ':');
    hide Fixed, Decimal, Joined, Triple, AllDigits;
    var d, c := Joined(Fixed(t.year, 4), Fixed(t.month, 2), Fixed(t.day, 2), '-'),
                Joined(Fixed(t.hour, 2), Fixed(t.minute, 2), Fixed(t.second, 2), ':');
    var s := DateTimeText(t);
    assert s == d + "T" + c && |d| == 10 && |c| == 8;
    assert s[..10] == d && s[11..] == c;
  }

  /** Reading a formatted timestamp gives back every field, the offset cut to whole minutes. */
  lemma ParseFormat(t: LocalTime)
    requires InRange(t) && 1000 <= t.year
    ensures ParseI3(FormatI3(t)) == Some(t.(offset := WholeMinutes(t.offset)))
    ensures MatchesGrammar(FormatI3(t))
  {
    DateTimeReads(t);
    FractionReads(t.micro);
    OffsetReads(t.offset);
    var a, f, o := DateTimeText(t), Fraction(t.micro), OffsetText(t.offset);
    var s := FormatI3(t);
    assert o[5] != 'Z' by {
      assert IsDigit(o[4..6][1]);
    }
    AssembledReads(t);
    assert |o| == 6 && |a| == 19;
    hide DateTimeText, Fraction, OffsetText, Assembled, DateTimeShape, FractionShape, OffsetShape, WholeMinutes;
    assert s == a + f + o;
    assert s[|s| - 6..] == o && s[..|s| - 6] == a + f && s[|s| - 1] == o[5];
    assert s[..19] == a && s[19..|s| - 6] == f;
    assert (a + f)[..19] == a && (a + f)[19..] == f;
  }

  lemma AssembledReads(t: LocalTime)
    requires InRange(t) && 1000 <= t.year
    requires DateTimeShape(DateTimeText(t)) && FractionShape(Fraction(t.micro)) && OffsetShape(OffsetText(t.offset))
    ensures Assembled(DateTimeText(t), Fraction(t.micro), OffsetText(t.offset))
            == Some(t.(offset := WholeMinutes(t.offset)))
  {
    DateTimeReads(t);
    FractionReads(t.micro);
    OffsetReads(t.offset);
    assert Fraction(t.micro) == "" <==> t.micro == 0;
    assert InRange(t.(offset := WholeMinutes(t.offset)));
    hide DateTimeText, Fraction, OffsetText, DateTimeShape, FractionShape, OffsetShape, WholeMinutes, Triple,
         Micros, ParseOffset, InRange;
  }

  /** With a `%Y` that does not pad, the grammar takes exactly the timestamps of years with four digits. */
  lemma GrammarNeedsFourDigitYear(t: LocalTime)
    requires InRange(t)
    ensures MatchesGrammar(FormatI3(t)) <==> 1000 <= t.year
  {
    if 1000 <= t.year {
      ParseFormat(t);
    } else {
      var d := Decimal(t.year);
      assert |Decimal(t.year / 10 / 10)| == 1;
      assert |Decimal(t.year / 10)| <= 2 && |d| <= 3;
      assert FormatI3(t)[..|d|] == d && FormatI3(t)[|d|] == '-';
      DashComesEarly(FormatI3(t), |Decimal(t.year)|);
    }
  }

  lemma DashComesEarly(s: string, at: nat)
    requires at < 4 && at + 1 < |s| && s[at] == '-'
    ensures !MatchesGrammar(s)
  {
    if MatchesExactly(s) {
      StartsWithDigits(s, at);
    }
    if |s| > 25 && MatchesExactly(s[..|s| - 1]) {
      StartsWithDigits(s[..|s| - 1], at);
    }
  }

  lemma StartsWithDigits(s: string, at: nat)
    requires MatchesExactly(s) && at < 4
    ensures IsDigit(s[at])
  {
    assert s[..19][..10][..4][at] == s[at];
  }

  /** For four-digit years the round trip keeps the instant, to the microsecond, exactly when
      the local offset is a whole number of minutes. */
  lemma SameInstantIffWholeMinutes(t: LocalTime)
    requires InRange(t) && 1000 <= t.year
    ensures ParseI3(FormatI3(t)).Some?
    ensures Instant(ParseI3(FormatI3(t)).value) == Instant(t) <==> t.offset % 60 == 0
  {
    ParseFormat(t);
    OffsetMovesInstant(t, WholeMinutes(t.offset));
    WholeMinutesExact(t.offset);
    hide *;
  }

  lemma WholeMinutesExact(offset: int)
    ensures WholeMinutes(offset) == offset <==> offset % 60 == 0
  {
  }

  lemma OffsetMovesInstant(t: LocalTime, offset: int)
    ensures Instant(t.(offset := offset)) == Instant(t) + (t.offset - offset) * 1_000_000
  {
    hide DaysBeforeMonth, LeapsUpTo;
  }

  /** For one: noon in New York on the day before the railways agreed on zones, 4:56:02 behind. */
  function LastSunNoon(): (t: LocalTime)
    ensures InRange(t) && 1000 <= t.year && t.offset % 60 != 0
  {
    LocalTime(1883, 11, 17, 12, 0, 0, 0, -17762)
  }

  lemma OddOffsetMovesInstant()
    ensures ParseI3(FormatI3(LastSunNoon())).Some?
    ensures Instant(ParseI3(FormatI3(LastSunNoon())).value) != Instant(LastSunNoon())
  {
    hide *;
    SameInstantIffWholeMinutes(LastSunNoon());
  }

  lemma ShortYearIsRefused()
    ensures var t := LocalTime(999, 1, 1, 0, 0, 0, 0, 0); InRange(t) && !MatchesGrammar(FormatI3(t))
  {
    var t := LocalTime(999, 1, 1, 0, 0, 0, 0, 0);
    assert InRange(t);
    hide FormatI3, MatchesGrammar, InRange;
    GrammarNeedsFourDigitYear(t);
  }

  // ---------------------------------------------------------------- the notation of RFC 3339

  /** A final Z is an offset of zero. */
  lemma ZuluIsZeroOffset(s: string)
    ensures ParseI3(s + "Z") == ParseI3(s + "+00:00")
  {
    var z, n := s + "Z", s + "+00:00";
    assert z[|z| - 1] == 'Z' && z[..|z| - 1] == s;
    assert n[|n| - 1] == '0' && n[..|n| - 6] == s && n[|n| - 6..] == "+00:00";
    hide DateTimeShape, FractionShape, OffsetShape, Assembled;
  }

  /** A fraction finer than microseconds is cut, not rounded. */
  lemma FinerIsCut(digits: string, more: string)
    requires AllDigits(digits) && |digits| == 6 && AllDigits(more)
    ensures AllDigits(digits + more) && Micros(digits + more) == Micros(digits) == Number(digits)
  {
    assert (digits + more)[..6] == digits && digits[..6] == digits;
  }

  /** With a numeric offset, what can be read is what the grammar accepts, as far as there is
      such a date, time and offset. */
  lemma ReadsWhatMatches(s: string)
    requires s != "" && s[|s| - 1] != 'Z'
    ensures ParseI3(s).Some? <==>
      MatchesExactly(s) && Assembled(s[..19], s[19..|s| - 6], s[|s| - 6..]).Some?
  {
    if |s| >= 25 {
      var front := s[..|s| - 6];
      assert front[..19] == s[..19] && front[19..] == s[19..|s| - 6];
    }
    hide DateTimeShape, FractionShape, OffsetShape, Assembled;
  }

  lemma DaysInYear(y: int)
    ensures DaysBeforeMonth(y, 12) + 31 == if Leap(y) then 366 else 365
  {
    hide Leap;
    assert DaysBeforeMonth(y, 3) == DaysBeforeMonth(y, 2) + DaysIn(y, 2) && DaysBeforeMonth(y, 2) == 31;
    assert DaysBeforeMonth(y, 6) == DaysBeforeMonth(y, 3) + 31 + 30 + 31 by {
      assert DaysBeforeMonth(y, 4) == DaysBeforeMonth(y, 3) + 31 && DaysBeforeMonth(y, 5) == DaysBeforeMonth(y, 4) + 30;
    }
    assert DaysBeforeMonth(y, 9) == DaysBeforeMonth(y, 6) + 30 + 31 + 31 by {
      assert DaysBeforeMonth(y, 7) == DaysBeforeMonth(y, 6) + 30 && DaysBeforeMonth(y, 8) == DaysBeforeMonth(y, 7) + 31;
    }
    assert DaysBeforeMonth(y, 12) == DaysBeforeMonth(y, 9) + 30 + 31 + 30 by {
      assert DaysBeforeMonth(y, 10) == DaysBeforeMonth(y, 9) + 30 && DaysBeforeMonth(y, 11) == DaysBeforeMonth(y, 10) + 31;
    }
  }

  lemma Fours(y: int)
    ensures y / 4 == (y - 1) / 4 + if y % 4 == 0 then 1 else 0
    ensures y % 100 == 0 ==> y % 4 == 0
  {
  }

  lemma Hundreds(y: int)
    ensures y / 100 == (y - 1) / 100 + if y % 100 == 0 then 1 else 0
    ensures y % 400 == 0 ==> y % 100 == 0
  {
  }

  lemma FourHundreds(y: int)
    ensures y / 400 == (y - 1) / 400 + if y % 400 == 0 then 1 else 0
  {
  }

  lemma LeapYearsCounted(y: int)
    ensures LeapsUpTo(y) == LeapsUpTo(y - 1) + if Leap(y) then 1 else 0
  {
    Fours(y);
    Hundreds(y);
    FourHundreds(y);
  }

  /** The calendar has no gap: after the last day of a month comes the first of the next, leap
      years included. */
  lemma DaysFollow(y: int, m: int)
    requires 1 <= y && 1 <= m <= 12
    ensures var next := if m < 12 then LocalTime(y, m + 1, 1, 0, 0, 0, 0, 0) else LocalTime(y + 1, 1, 1, 0, 0, 0, 0, 0);
      Instant(next) == Instant(LocalTime(y, m, DaysIn(y, m), 0, 0, 0, 0, 0)) + 86_400_000_000
  {
    if m == 12 {
      DaysInYear(y);
      LeapYearsCounted(y);
    }
    hide Leap, LeapsUpTo;
  }

  lemma TwoDigits(n: nat)
    requires n < 100
    ensures Fixed(n, 2) == [DigitChar(n / 10), DigitChar(n % 10)]
  {
    var tens, ones := n / 10, n % 10;
    assert Fixed(n, 2) == Fixed(tens, 1) + [DigitChar(ones)];
    OneDigit(tens);
    hide Fixed, DigitChar;
  }

  lemma OneDigit(d: nat)
    requires d < 10
    ensures Fixed(d, 1) == [DigitChar(d)]
  {
    assert Fixed(d, 1) == Fixed(d / 10, 0) + [DigitChar(d % 10)];
  }

  lemma Year1996()
    ensures Decimal(1996) == "1996"
  {
    assert Decimal(199) == Decimal(19) + [DigitChar(9)];
    assert Decimal(19) == Decimal(1) + [DigitChar(9)];
  }

  /** West of Greenwich the offset has a minus sign. */
  lemma OffsetSigns(offset: int)
    requires -86_400 < offset < 86_400
    ensures var s := OffsetText(offset);
      && OffsetShape(s) && s[0] == (if offset < 0 then '-' else '+')
      && (60 <= offset ==> 0 < ParseOffset(s)) && (offset <= -60 ==> ParseOffset(s) < 0)
  {
    OffsetReads(offset);
    var total := Abs(offset);
    assert total / 3600 < 24 && total % 3600 / 60 < 60;
    SignedHoursRead(if offset >= 0 then '+' else '-', total / 3600, total % 3600 / 60);
    hide ParseOffset, SignedHours, OffsetShape;
  }

  /** The second example of section 5.8: 16:39:57 in the Pacific zone on December 19th, 1996. */
  function PacificExample(): (t: LocalTime)
    ensures InRange(t) && 1000 <= t.year
  {
    LocalTime(1996, 12, 19, 16, 39, 57, 0, -28_800)
  }

  /** The same in UTC. */
  function UtcExample(): (t: LocalTime)
    ensures InRange(t) && 1000 <= t.year
  {
    LocalTime(1996, 12, 20, 0, 39, 57, 0, 0)
  }

  lemma ExampleTexts()
    ensures FormatI3(PacificExample()) == "1996-12-19T16:39:57-08:00"
    ensures FormatI3(UtcExample()) == "1996-12-20T00:39:57" + "+00:00"
  {
    Year1996();
    TwoDigits(12);
    TwoDigits(19);
    TwoDigits(20);
    TwoDigits(16);
    TwoDigits(39);
    TwoDigits(57);
    TwoDigits(8);
    TwoDigits(0);
    hide Fixed, Decimal;
    assert DateTimeText(PacificExample()) == "1996-12-19T16:39:57";
    assert DateTimeText(UtcExample()) == "1996-12-20T00:39:57";
    assert OffsetText(-28_800) == "-08:00" && OffsetText(0) == "+00:00";
  }

  lemma SameMoment()
    ensures Instant(PacificExample()) == Instant(UtcExample())
  {
    hide DaysBeforeMonth, LeapsUpTo;
  }

  /** Both notations of the example read as they should, and mean the same moment. */
  lemma Rfc3339Example()
    ensures FormatI3(PacificExample()) == "1996-12-19T16:39:57-08:00"
    ensures ParseI3("1996-12-19T16:39:57-08:00") == Some(PacificExample())
    ensures ParseI3("1996-12-20T00:39:57" + "Z") == Some(UtcExample())
    ensures Instant(PacificExample()) == Instant(UtcExample())
  {
    hide FormatI3, ParseI3, InRange, Instant;
    ExampleTexts();
    ParseFormat(PacificExample());
    ParseFormat(UtcExample());
    ZuluIsZeroOffset("1996-12-20T00:39:57");
    SameMoment();
  }
}
