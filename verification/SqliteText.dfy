/**
 The text a SQLite file written before 0.15 holds its timestamps as, `YYYY-MM-DD HH:MM:SS[.f{1,6}]`,
 and its conversion to integer microseconds in SQL. `strftime('%s', ...)` is SQLite's own Julian day
 arithmetic; the reader of an unconverted file goes through Python's `datetime` instead.
 */
module SqliteText {
  import opened Wrappers
  import opened Decimal
  import opened Calendar

  /** `YYYY-MM-DD?HH:MM:SS` with any separator between date and time. */
  predicate SecondsShape(s: string) {
    && |s| == 19
    && AllDigits(s[..4]) && s[4] == '-' && AllDigits(s[5..7]) && s[7] == '-' && AllDigits(s[8..10])
    && AllDigits(s[11..13]) && s[13] == ':' && AllDigits(s[14..16]) && s[16] == ':' && AllDigits(s[17..19])
  }

  function SecondsFields(s: string): DateTime
    requires SecondsShape(s)
  {
    DateTime(Value(s[..4]), Value(s[5..7]), Value(s[8..10]),
             Value(s[11..13]), Value(s[14..16]), Value(s[17..19]), 0)
  }

  function SecondsText(d: Civil, separator: char): (s: string)
    ensures |s| == 19
  {
    Pad(d.year, 4) + "-" + Pad(d.month, 2) + "-" + Pad(d.day, 2) + [separator]
    + Pad(d.hour, 2) + ":" + Pad(d.minute, 2) + ":" + Pad(d.second, 2)
  }

  /** The digits after the dot as microseconds: short fractions scale up, long ones are cut. */
  function FractionMicros(f: string): (us: nat)
    requires AllDigits(f)
  {
    if |f| >= 6 then Value(f[..6]) else Value(f) * Pow10(6 - |f|)
  }

  /** `datetime.fromisoformat` on a value without an offset; None where it raises ValueError. */
  function FromIso(s: string): Option<Civil> {
    if |s| < 19 || !SecondsShape(s[..19]) then None else
    var f := if |s| == 19 then "" else s[20..];
    if |s| != 19 && (s[19] != '.' || f == "" || !AllDigits(f)) then None else
    var d := SecondsFields(s[..19]).(micro := FractionMicros(f));
    if d.Valid() then Some(d) else None
  }

  /** What every version before 0.15 wrote: 0 to 6 fraction digits, a valid date and time. */
  predicate WellFormed(s: string) {
    |s| <= 26 && FromIso(s).Some?
  }

  /** The instant a text row decodes to on a file that is not converted yet. */
  function TextInstant(s: string): Instant
    requires WellFormed(s)
  {
    ToInstant(FromIso(s).value)
  }

  /** SQLite's computeJD as a day count; `/` floors on these positive values. */
  function JulianDays(year: int, month: int, day: int): int {
    var y := if month <= 2 then year - 1 else year;
    var m := if month <= 2 then month + 12 else month;
    var a := (y + 4800) / 100;
    var b := 38 - a + a / 4;
    36525 * (y + 4716) / 100 + 306001 * (m + 1) / 10000 + day + b
  }

  /** `strftime('%s', ...)`: Julian days less the half-day offset, rebased to the Unix epoch. */
  function JulianSeconds(d: DateTime): int {
    JulianDays(d.year, d.month, d.day) * 86400 - 131716800 + SecondOfDay(d) - 210866760000
  }

  /** SQL `substr(s, start, length)` for a positive start, counted from 1. */
  function Substr(s: string, start: nat, length: nat): (r: string)
    requires start >= 1
  {
    var low := if start - 1 <= |s| then start - 1 else |s|;
    var high := if start - 1 + length <= |s| then start - 1 + length else |s|;
    s[low..high]
  }

  /** The SQL expression `_TEXT_TO_MICROS` assigns; `CAST` of a digit string is its value. */
  function TextToMicros(s: string): int
    requires WellFormed(s)
  {
    var padded := Substr(s + "000000", 21, 6);
    PaddedFraction(s);
    JulianSeconds(SecondsFields(Substr(s, 1, 19))) * 1000000 + Value(padded)
  }

  lemma ConcatDigits(s: string, t: string)
    requires AllDigits(s) && AllDigits(t)
    ensures AllDigits(s + t)
  {
  }

  /** Padding the text and cutting six characters yields the fraction in microseconds. */
  lemma PaddedFraction(s: string)
    requires WellFormed(s)
    ensures Substr(s, 1, 19) == s[..19]
    ensures var padded := Substr(s + "000000", 21, 6);
            AllDigits(padded) && Value(padded) == FractionMicros(if |s| == 19 then "" else s[20..])
  {
    var f := if |s| == 19 then "" else s[20..];
    var padded := Substr(s + "000000", 21, 6);
    if |s| == 19 {
      ValueOfZeros(5);
      assert padded == seq(5, _ => '0');
    } else {
      var zeros := seq(6 - |f|, _ => '0');
      assert padded == f + zeros;
      ValueOfZeros(6 - |f|);
      ConcatDigits(f, zeros);
      ValueOfConcat(f, zeros);
      if |f| == 6 {
        assert f[..6] == f;
      }
    }
  }

  /** The year part of Meeus' formula against Python's, for the March-based year `y`. */
  lemma JulianYear(y: int)
    requires 0 <= y
    ensures 36525 * (y + 4716) / 100 == 365 * (y + 4716) + y / 4 + 1179
    ensures (y + 4800) / 100 == y / 100 + 48
    ensures (y / 100 + 48) / 4 == y / 400 + 12
  {
    assert 36525 * (y + 4716) / 100 == 365 * (y + 4716) + (y + 4716) / 4;
  }

  lemma JulianMonth(m: int)
    requires 3 <= m <= 14
    ensures 306001 * (m + 1) / 10000 == 30 * m + 30 + (6 * m + 6) / 10
  {
  }

  lemma JulianDayInJanuaryOrFebruary(y: int, m: int, d: int)
    requires 1 <= y && 1 <= m <= 2
    ensures JulianDays(y, m, d) - 2442112 == Ordinal(y, m, d) - EPOCH_ORDINAL
  {
    MonthTable(y);
    JulianYear(y - 1);
    JulianMonth(m + 12);
    hide LeapDay, DaysBeforeMonth;
  }

  lemma JulianDayFromMarch(y: int, m: int, d: int)
    requires 1 <= y && 3 <= m <= 12
    ensures JulianDays(y, m, d) - 2442112 == Ordinal(y, m, d) - EPOCH_ORDINAL
  {
    MonthTable(y);
    NextYear(y);
    JulianYear(y);
    JulianMonth(m);
    hide LeapDay, DaysBeforeMonth;
  }

  /** Meeus' day count, as SQLite computes it, is Python's ordinal for every date of the calendar. */
  lemma JulianDayIsOrdinal(d: Civil)
    ensures JulianDays(d.year, d.month, d.day) - 2442112 == Ordinal(d.year, d.month, d.day) - EPOCH_ORDINAL
  {
    hide JulianDays, Ordinal;
    if d.month <= 2 {
      JulianDayInJanuaryOrFebruary(d.year, d.month, d.day);
    } else {
      JulianDayFromMarch(d.year, d.month, d.day);
    }
  }

  /** The in-place conversion keeps every row's instant, before and after the epoch. */
  lemma ConversionKeepsInstant(s: string)
    requires WellFormed(s)
    ensures TextToMicros(s) == TextInstant(s)
  {
    PaddedFraction(s);
    JulianDayIsOrdinal(FromIso(s).value);
  }

  /** `strftime('%Y-%m-%d %H:%M:%S.%f')`, the fixed-width text; four-digit years only. */
  function TextOf(d: Civil): (s: string)
    requires d.year >= 1000
    ensures |s| == 26
  {
    SecondsText(d, ' ') + "." + Pad(d.micro, 6)
  }

  lemma SmallPowers()
    ensures Pow10(2) == 100 && Pow10(4) == 10000 && Pow10(6) == SECOND
  {
    assert Pow10(1) == 10;
    assert Pow10(3) == 10 * Pow10(2);
    assert Pow10(5) == 10 * Pow10(4);
  }

  lemma SecondsTextReads(d: Civil, separator: char)
    ensures SecondsShape(SecondsText(d, separator))
    ensures SecondsFields(SecondsText(d, separator)) == d.(micro := 0)
  {
    hide Pad, Value;
    var s := SecondsText(d, separator);
    assert s[..4] == Pad(d.year, 4) && s[5..7] == Pad(d.month, 2) && s[8..10] == Pad(d.day, 2);
    assert s[11..13] == Pad(d.hour, 2) && s[14..16] == Pad(d.minute, 2) && s[17..19] == Pad(d.second, 2);
    SmallPowers();
    ValueOfPad(d.year, 4);
    ValueOfPad(d.month, 2);
    ValueOfPad(d.day, 2);
    ValueOfPad(d.hour, 2);
    ValueOfPad(d.minute, 2);
    ValueOfPad(d.second, 2);
  }

  /** A printed date and time with six fraction digits reads back. */
  lemma SixDigitTextReads(d: Civil, separator: char, fraction: string)
    requires |fraction| == 6 && AllDigits(fraction) && Value(fraction) == d.micro
    ensures FromIso(SecondsText(d, separator) + "." + fraction) == Some(d)
  {
    var s := SecondsText(d, separator) + "." + fraction;
    SecondsTextReads(d, separator);
    assert s[..19] == SecondsText(d, separator) && s[20..] == fraction;
    assert fraction[..6] == fraction;
  }

  /** Text written by the old schema reads back as the datetime it was written from. */
  lemma TextRoundTrip(d: Civil)
    requires d.year >= 1000
    ensures WellFormed(TextOf(d)) && FromIso(TextOf(d)) == Some(d)
  {
    SmallPowers();
    ValueOfPad(d.micro, 6);
    SixDigitTextReads(d, ' ', Pad(d.micro, 6));
  }

  /** A fixed-width field and what follows it: text order is lexicographic on (number, rest). */
  lemma FieldOrder(x: nat, y: nat, width: nat, rest: string, rest': string)
    requires x < Pow10(width) && y < Pow10(width)
    ensures TextLess(Pad(x, width) + rest, Pad(y, width) + rest') <==> x < y || (x == y && TextLess(rest, rest'))
  {
    TextLessConcat(Pad(x, width), rest, Pad(y, width), rest');
    TextOrderIsNumberOrder(Pad(x, width), Pad(y, width));
    ValueOfPad(x, width);
    ValueOfPad(y, width);
  }

  /** The same for a field preceded by a separator. */
  lemma SeparatedFieldOrder(c: char, x: nat, y: nat, width: nat, rest: string, rest': string)
    requires x < Pow10(width) && y < Pow10(width)
    ensures TextLess([c] + (Pad(x, width) + rest), [c] + (Pad(y, width) + rest'))
            <==> x < y || (x == y && TextLess(rest, rest'))
  {
    TextLessConcat([c], Pad(x, width) + rest, [c], Pad(y, width) + rest');
    FieldOrder(x, y, width, rest, rest');
  }

  /** ` HH:MM:SS.ffffff`, associated to the right for field-by-field comparison. */
  function ClockText(d: Civil): string {
    " " + (Pad(d.hour, 2) + (":" + (Pad(d.minute, 2) + (":" + (Pad(d.second, 2) + ("." + (Pad(d.micro, 6) + "")))))))
  }

  lemma ClockOrder(a: Civil, b: Civil)
    ensures TextLess(ClockText(a), ClockText(b))
            <==> SecondOfDay(a) < SecondOfDay(b) || (SecondOfDay(a) == SecondOfDay(b) && a.micro < b.micro)
  {
    hide Pad, TextLess, Value;
    SmallPowers();
    EmptyIsNotLess();
    var (f, f') := ("." + (Pad(a.micro, 6) + ""), "." + (Pad(b.micro, 6) + ""));
    var (s, s') := (":" + (Pad(a.second, 2) + f), ":" + (Pad(b.second, 2) + f'));
    var (i, i') := (":" + (Pad(a.minute, 2) + s), ":" + (Pad(b.minute, 2) + s'));
    SeparatedFieldOrder(' ', a.hour, b.hour, 2, i, i');
    SeparatedFieldOrder(':', a.minute, b.minute, 2, s, s');
    SeparatedFieldOrder(':', a.second, b.second, 2, f, f');
    SeparatedFieldOrder('.', a.micro, b.micro, 6, "", "");
  }

  /** `-MM-DD HH:MM:SS.ffffff` in the same association. */
  function AfterYear(d: Civil): string {
    "-" + (Pad(d.month, 2) + ("-" + (Pad(d.day, 2) + ClockText(d))))
  }

  lemma TextOfIsNested(d: Civil)
    requires d.year >= 1000
    ensures TextOf(d) == Pad(d.year, 4) + AfterYear(d)
  {
    hide Pad;
  }

  lemma TextOrderIsFieldOrder(a: Civil, b: Civil)
    requires a.year >= 1000 && b.year >= 1000
    ensures TextLess(TextOf(a), TextOf(b)) <==> Before(a, b)
  {
    hide Pad, TextLess, ClockText, SecondOfDay, TextOf, Value;
    SmallPowers();
    var (h, h') := (ClockText(a), ClockText(b));
    var (d, d') := ("-" + (Pad(a.day, 2) + h), "-" + (Pad(b.day, 2) + h'));
    TextOfIsNested(a);
    TextOfIsNested(b);
    FieldOrder(a.year, b.year, 4, AfterYear(a), AfterYear(b));
    SeparatedFieldOrder('-', a.month, b.month, 2, d, d');
    SeparatedFieldOrder('-', a.day, b.day, 2, h, h');
    ClockOrder(a, b);
  }

  /**
   Text order of the fixed-width strings is the order of the integers replacing them, so a range
   bound rendered by `_text_timestamp` selects on an unconverted file the rows the integer bound
   selects on the converted one.
   */
  lemma TextOrderIsInstantOrder(a: Civil, b: Civil)
    requires a.year >= 1000 && b.year >= 1000
    ensures TextLess(TextOf(a), TextOf(b)) <==> ToInstant(a) < ToInstant(b)
    ensures TextOf(a) == TextOf(b) <==> ToInstant(a) == ToInstant(b)
  {
    InstantOrder(a, b);
    TextOrderIsFieldOrder(a, b);
    TextRoundTrip(a);
    TextRoundTrip(b);
  }
}
