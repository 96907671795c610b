/**
 The KNX CommunicationLog container: timestamps and cEMI bytes as attribute strings, and the
 logger's declared offset. XML tokenising is not modelled: a log is the sequence of parse events.
 */
module EtsXml {
  import opened Wrappers
  import opened Decimal
  import opened Calendar
  import opened SqliteText

  type Byte = n: nat | n < 256

  datatype Record = Record(timestamp: Instant, service: string, rawData: seq<Byte>, frameFormat: string)

  /** The attributes of a Telegram element the reader looks at, as strings. */
  datatype Attributes = Attributes(
    timestamp: Option<string>, connectionName: Option<string>, service: Option<string>,
    frameFormat: Option<string>, rawData: Option<string>)

  datatype Event =
    | Comment(text: string)
    | Telegram(attributes: Attributes)
    | OtherElement

  // ---- Timestamps ----

  predicate IsSpace(c: char) {
    c in {' ', '\t', '\n', '\r', 0x0b as char, 0x0c as char}
  }

  function Strip(s: string): string {
    if s != "" && IsSpace(s[0]) then Strip(s[1..])
    else if s != "" && IsSpace(s[|s| - 1]) then Strip(s[..|s| - 1])
    else s
  }

  /** Python's `find` of one character: its first index, or the length when absent. */
  function Find(s: string, c: char): (i: nat)
    ensures i <= |s| && c !in s[..i] && (i < |s| ==> s[i] == c)
  {
    if s == "" || s[0] == c then 0
    else
      var i := Find(s[1..], c);
      assert s[..1 + i] == [s[0]] + s[1..][..i];
      1 + i
  }

  /** `±HH:MM` at the end of an ISO string, in microseconds. */
  function OffsetSuffix(s: string): Option<int> {
    if |s| < 6 then None else
    var t := s[|s| - 6..];
    if t[0] in {'+', '-'} && AllDigits(t[1..3]) && t[3] == ':' && AllDigits(t[4..6])
       && Value(t[1..3]) < 24 && Value(t[4..6]) < 60
    then Some((if t[0] == '+' then 1 else -1) * (Value(t[1..3]) * 60 + Value(t[4..6])) * 60 * SECOND)
    else None
  }

  /** `fromisoformat(ts)`, naive taken as UTC, then `astimezone(UTC)`; None where Python raises. */
  function IsoInstant(ts: string): Option<Instant> {
    var offset := OffsetSuffix(ts);
    var local := FromIso(if offset.Some? then ts[..|ts| - 6] else ts);
    if local.None? then None else
    var t := ToInstant(local.value) - (if offset.Some? then offset.value else 0);
    if Representable(t) then Some(t) else None
  }

  function ExpandZulu(ts: string): string {
    if ts != "" && ts[|ts| - 1] in {'Z', 'z'} then ts[..|ts| - 1] + "+00:00" else ts
  }

  /** Where the fraction ends: at the first '+', else at the first '-', else nowhere. */
  function FractionEnd(rest: string): (i: nat)
    ensures i <= |rest|
  {
    if '+' in rest then Find(rest, '+') else Find(rest, '-')
  }

  /** `f[:6].ljust(6, "0")` */
  function SixDigits(f: string): (r: string)
    ensures |r| == 6
  {
    if |f| >= 6 then f[..6] else f + seq(6 - |f|, _ => '0')
  }

  /** The string handed to `fromisoformat`: the fraction forced to six digits. */
  function Normalized(ts: string): string {
    var dot := Find(ts, '.');
    if dot == |ts| then ts else
    var rest := ts[dot + 1..];
    var end := FractionEnd(rest);
    ts[..dot] + "." + SixDigits(rest[..end]) + rest[end..]
  }

  function ParsedInstant(value: string): Option<Instant> {
    IsoInstant(Normalized(ExpandZulu(Strip(value))))
  }

  lemma FoundIffPresent(s: string, c: char)
    ensures Find(s, c) < |s| <==> c in s
  {
    if Find(s, c) == |s| {
      assert s[..|s|] == s;
    }
  }

  /** The search for the sign that ends the fraction. */
  method SplitOffset(rest: string) returns (frac: string, offset: string)
    ensures frac == rest[..FractionEnd(rest)] && offset == rest[FractionEnd(rest)..]
  {
    frac, offset := rest, "";
    var separators := ['+', '-'];
    var n := 0;
    while n < |separators|
      invariant 0 <= n <= 2
      invariant n >= 1 ==> '+' !in rest
      invariant n == 2 ==> '-' !in rest
    {
      var index := Find(rest, separators[n]);
      FoundIffPresent(rest, separators[n]);
      if index < |rest| {
        return rest[..index], rest[index..];
      }
      n := n + 1;
    }
    FoundIffPresent(rest, '-');
  }

  /** The fraction of `ts`, if any, forced to six digits. */
  method NormalizeFraction(ts: string) returns (r: string)
    ensures r == Normalized(ts)
  {
    hide SixDigits, FractionEnd;
    r := ts;
    var dot := Find(ts, '.');
    if dot < |ts| {
      var frac, offset := SplitOffset(ts[dot + 1..]);
      r := ts[..dot] + "." + SixDigits(frac) + offset;
    }
  }

  method ParseTimestamp(value: string) returns (r: Option<Instant>)
    ensures r == ParsedInstant(value)
  {
    hide Strip, IsoInstant, Normalized;
    var ts := Strip(value);
    if ts != "" && ts[|ts| - 1] in {'Z', 'z'} {
      ts := ts[..|ts| - 1] + "+00:00";
    }
    ts := NormalizeFraction(ts);
    r := IsoInstant(ts);
  }

  /** `_format_timestamp`: UTC with six fraction digits and a "Z". */
  function FormatTimestamp(t: Instant): string
    requires Representable(t)
  {
    var d := FromInstant(t).value;
    SecondsText(d, 'T') + "." + Pad(d.micro, 6) + "Z"
  }

  predicate FourDigitYear(t: Instant) {
    Representable(t) && FromInstant(t).value.year >= 1000
  }

  lemma {:induction false} FindIs(s: string, c: char, i: nat)
    requires i < |s| && s[i] == c && c !in s[..i]
    ensures Find(s, c) == i
  {
    if i > 0 {
      assert s[..i] == [s[0]] + s[1..][..i - 1];
      FindIs(s[1..], c, i - 1);
    }
  }

  lemma SixDigitsValue(f: string)
    requires AllDigits(f)
    ensures AllDigits(SixDigits(f)) && Value(SixDigits(f)) == FractionMicros(f)
    ensures FractionMicros(f) < SECOND
  {
    SmallPowers();
    if |f| < 6 {
      ValueOfZeros(6 - |f|);
      ValueOfConcat(f, seq(6 - |f|, _ => '0'));
    }
  }

  lemma NothingToStrip(s: string)
    requires s != "" && !IsSpace(s[0]) && !IsSpace(s[|s| - 1])
    ensures Strip(s) == s
  {
  }

  predicate AllSpaces(s: string) {
    forall i :: 0 <= i < |s| ==> IsSpace(s[i])
  }

  lemma {:induction false} SpacesAreStripped(a: string, s: string, b: string)
    requires AllSpaces(a) && AllSpaces(b) && s != "" && !IsSpace(s[0]) && !IsSpace(s[|s| - 1])
    ensures Strip(a + s + b) == s
    decreases |a| + |b|
  {
    var t := a + s + b;
    if a != "" {
      assert IsSpace(t[0]) && t[1..] == a[1..] + s + b;
      SpacesAreStripped(a[1..], s, b);
    } else if b != "" {
      var n := |b| - 1;
      assert t[0] == s[0] && t[|t| - 1] == b[n] && t[..|t| - 1] == a + s + b[..n];
      SpacesAreStripped(a, s, b[..n]);
    } else {
      assert t == s;
    }
  }

  /** White space around a timestamp does not matter, and a lower-case "z" is as good as a "Z". */
  lemma TimestampInSpaces(a: string, s: string, b: string)
    requires AllSpaces(a) && AllSpaces(b) && (s != "" ==> !IsSpace(s[0]))
    ensures s != "" && !IsSpace(s[|s| - 1]) ==> ParsedInstant(a + s + b) == ParsedInstant(s)
    ensures ParsedInstant(a + (s + "z") + b) == ParsedInstant(s + "Z")
  {
    if s != "" && !IsSpace(s[|s| - 1]) {
      SpacesAreStripped(a, s, b);
      NothingToStrip(s);
    }
    assert (s + "z")[..|s|] == s == (s + "Z")[..|s|];
    SpacesAreStripped(a, s + "z", b);
    NothingToStrip(s + "Z");
    hide Strip, Normalized, IsoInstant;
  }

  lemma SecondsHaveNoDot(base: string)
    requires SecondsShape(base) && base[10] == 'T'
    ensures |base| == 19 && '.' !in base && IsDigit(base[0])
  {
    assert IsDigit(base[..4][0]) && IsDigit(base[..4][1]) && IsDigit(base[..4][2]) && IsDigit(base[..4][3]);
    assert IsDigit(base[5..7][0]) && IsDigit(base[5..7][1]) && IsDigit(base[8..10][0]) && IsDigit(base[8..10][1]);
    assert IsDigit(base[11..13][0]) && IsDigit(base[11..13][1]) && IsDigit(base[14..16][0]) && IsDigit(base[14..16][1]);
    assert IsDigit(base[17..19][0]) && IsDigit(base[17..19][1]);
  }

  /** `±HH:MM` */
  function OffsetText(sign: char, hours: nat, minutes: nat): (s: string)
    ensures |s| == 6 && s[0] == sign
  {
    [sign] + Pad(hours, 2) + ":" + Pad(minutes, 2)
  }

  function OffsetMicros(sign: char, hours: nat, minutes: nat): int {
    (if sign == '+' then 1 else -1) * (hours * 60 + minutes) * 60 * SECOND
  }

  lemma OffsetTextParts(sign: char, hours: nat, minutes: nat)
    ensures var s := OffsetText(sign, hours, minutes);
            && s[1..3] == Pad(hours, 2) && s[3] == ':' && s[4..6] == Pad(minutes, 2)
            && IsDigit(s[1]) && IsDigit(s[2]) && IsDigit(s[4]) && IsDigit(s[5])
  {
    hide Pad;
    var s := OffsetText(sign, hours, minutes);
    assert s[1..3] == Pad(hours, 2) && s[4..6] == Pad(minutes, 2);
    assert IsDigit(s[1..3][0]) && IsDigit(s[1..3][1]) && IsDigit(s[4..6][0]) && IsDigit(s[4..6][1]);
  }

  lemma SignIsFound(f: string, suffix: string)
    requires AllDigits(f) && |suffix| == 6 && suffix[0] in {'+', '-'} && '+' !in suffix[1..]
    ensures FractionEnd(f + suffix) == |f|
  {
    var rest := f + suffix;
    assert rest[|f|] == suffix[0] && rest[..|f|] == f;
    if suffix[0] == '+' {
      FindIs(rest, '+', |f|);
    } else {
      assert '+' !in rest by {
        assert forall i :: 0 <= i < |suffix| ==> suffix[i] != '+' by {
          assert forall i :: 0 < i < |suffix| ==> suffix[i] == suffix[1..][i - 1];
        }
      }
      FindIs(rest, '-', |f|);
    }
  }

  /** The dot is found behind the seconds and the sign behind the fraction. */
  lemma NormalizedParts(base: string, f: string, suffix: string)
    requires |base| == 19 && '.' !in base && AllDigits(f)
    requires |suffix| == 6 && suffix[0] in {'+', '-'} && '+' !in suffix[1..]
    ensures Normalized(base + "." + f + suffix) == base + "." + SixDigits(f) + suffix
  {
    hide SixDigits, Find, FractionEnd;
    var ts := base + "." + f + suffix;
    assert ts[..19] == base && ts[19] == '.';
    FindIs(ts, '.', 19);
    var rest := ts[20..];
    assert rest == f + suffix && rest[..|f|] == f && rest[|f|..] == suffix;
    SignIsFound(f, suffix);
  }

  /** Stripping, the "Z" and the fraction search leave six digits and a UTC offset. */
  lemma NormalizedZulu(base: string, f: string)
    requires SecondsShape(base) && base[10] == 'T' && AllDigits(f)
    ensures Normalized(ExpandZulu(Strip(base + "." + f + "Z"))) == base + "." + SixDigits(f) + "+00:00"
  {
    hide SixDigits, Normalized, Strip, Value, SecondsShape;
    SecondsHaveNoDot(base);
    var value := base + "." + f + "Z";
    assert value[0] == base[0] && value[|value| - 1] == 'Z';
    NothingToStrip(value);
    assert ExpandZulu(value) == base + "." + f + "+00:00";
    NormalizedParts(base, f, "+00:00");
  }

  lemma UtcSuffix(s: string)
    ensures OffsetSuffix(s + "+00:00") == Some(0)
  {
    var t := (s + "+00:00")[|s|..];
    assert t == "+00:00" && t[1..3] == seq(2, _ => '0') && t[4..6] == seq(2, _ => '0');
    ValueOfZeros(2);
  }

  lemma IsoOfUtc(local: string, d: Civil)
    requires FromIso(local) == Some(d)
    ensures IsoInstant(local + "+00:00") == Some(ToInstant(d))
  {
    UtcSuffix(local);
    assert (local + "+00:00")[..|local|] == local;
    InstantsAreRepresentable(d);
  }

  /** What the timestamp parser makes of `YYYY-MM-DDTHH:MM:SS.<digits>Z`. */
  lemma ParseOfFraction(d: Civil, f: string)
    requires AllDigits(f)
    ensures FractionMicros(f) < SECOND
    ensures ParsedInstant(SecondsText(d, 'T') + "." + f + "Z") == Some(ToInstant(d.(micro := FractionMicros(f))))
  {
    var e: Civil := (SixDigitsValue(f); d.(micro := FractionMicros(f)));
    var base := SecondsText(d, 'T');
    assert base == SecondsText(e, 'T');
    SecondsTextReads(d, 'T');
    NormalizedZulu(base, f);
    SixDigitTextReads(e, 'T', SixDigits(f));
    IsoOfUtc(base + "." + SixDigits(f), e);
  }

  lemma OffsetIsRead(s: string, sign: char, hours: nat, minutes: nat)
    requires sign in {'+', '-'} && hours < 24 && minutes < 60
    ensures OffsetSuffix(s + OffsetText(sign, hours, minutes)) == Some(OffsetMicros(sign, hours, minutes))
  {
    SmallPowers();
    ValueOfPad(hours, 2);
    ValueOfPad(minutes, 2);
    OffsetTextParts(sign, hours, minutes);
    hide OffsetText, Value;
    var whole := s + OffsetText(sign, hours, minutes);
    assert whole[|whole| - 6..] == OffsetText(sign, hours, minutes);
  }

  lemma IsoWithOffset(local: string, d: Civil, sign: char, hours: nat, minutes: nat)
    requires FromIso(local) == Some(d) && sign in {'+', '-'} && hours < 24 && minutes < 60
    ensures var t := ToInstant(d) - OffsetMicros(sign, hours, minutes);
            IsoInstant(local + OffsetText(sign, hours, minutes)) == if Representable(t) then Some(t) else None
  {
    OffsetIsRead(local, sign, hours, minutes);
    OffsetTextParts(sign, hours, minutes);
    hide *;
    var whole := local + OffsetText(sign, hours, minutes);
    assert whole[..|whole| - 6] == local;
    IsoParts(whole, d, OffsetMicros(sign, hours, minutes));
  }

  lemma IsoParts(ts: string, d: Civil, offset: int)
    requires |ts| >= 6 && OffsetSuffix(ts) == Some(offset) && FromIso(ts[..|ts| - 6]) == Some(d)
    ensures var t := ToInstant(d) - offset;
            IsoInstant(ts) == if Representable(t) then Some(t) else None
  {
    hide OffsetSuffix, FromIso, ToInstant, Representable;
  }

  lemma NormalizedOffset(base: string, f: string, sign: char, hours: nat, minutes: nat)
    requires SecondsShape(base) && base[10] == 'T' && AllDigits(f) && sign in {'+', '-'}
    ensures var suffix := OffsetText(sign, hours, minutes);
            Normalized(ExpandZulu(Strip(base + "." + f + suffix))) == base + "." + SixDigits(f) + suffix
  {
    OffsetTextParts(sign, hours, minutes);
    SecondsHaveNoDot(base);
    hide SixDigits, Normalized, Strip, Value, SecondsShape, OffsetText;
    var suffix := OffsetText(sign, hours, minutes);
    var value := base + "." + f + suffix;
    assert value[0] == base[0] && value[|value| - 1] == suffix[5];
    NothingToStrip(value);
    assert ExpandZulu(value) == value;
    assert forall i :: 0 <= i < 5 ==> suffix[1..][i] == suffix[1 + i];
    NormalizedParts(base, f, suffix);
  }

  /** With an explicit offset the instant is the printed time, fraction and all, less that offset. */
  lemma ParseOfOffset(e: Civil, f: string, sign: char, hours: nat, minutes: nat)
    requires AllDigits(f) && FractionMicros(f) == e.micro && sign in {'+', '-'} && hours < 24 && minutes < 60
    ensures var t := ToInstant(e) - OffsetMicros(sign, hours, minutes);
            ParsedInstant(SecondsText(e, 'T') + "." + f + OffsetText(sign, hours, minutes))
            == if Representable(t) then Some(t) else None
  {
    var base := SecondsText(e, 'T');
    assert base[10] == 'T';
    SecondsTextReads(e, 'T');
    SixDigitsValue(f);
    hide OffsetText, OffsetMicros, SecondsText, SecondsShape, Normalized, IsoInstant, Strip, ExpandZulu, ToInstant, FromIso;
    hide FractionMicros, SixDigits, Value, Representable;
    NormalizedOffset(base, f, sign, hours, minutes);
    SixDigitTextReads(e, 'T', SixDigits(f));
    IsoWithOffset(base + "." + SixDigits(f), e, sign, hours, minutes);
  }

  lemma NaiveIso(base: string, d: Civil)
    requires SecondsShape(base) && SecondsFields(base) == d && d.micro == 0
    ensures IsoInstant(base) == Some(ToInstant(d))
  {
    assert base[..19] == base && base[13..][0] == base[13] == ':';
    hide SecondsShape, SecondsFields, ToInstant, Representable;
    assert FromIso(base) == Some(d);
    InstantsAreRepresentable(d);
  }

  lemma NothingToNormalize(base: string)
    requires base != "" && IsDigit(base[0]) && IsDigit(base[|base| - 1]) && '.' !in base
    ensures ParsedInstant(base) == IsoInstant(base)
  {
    NothingToStrip(base);
    FoundIffPresent(base, '.');
    hide Strip, Find, IsoInstant, SixDigits, FractionEnd;
    assert base[|base| - 1] !in {'Z', 'z'} && ExpandZulu(base) == base;
    hide ExpandZulu;
    assert Normalized(base) == base;
  }

  /** Without offset and fraction the digits are taken as UTC. */
  lemma ParseOfNaive(d: Civil)
    ensures ParsedInstant(SecondsText(d, 'T')) == Some(ToInstant(d.(micro := 0)))
  {
    var base := SecondsText(d, 'T');
    assert base[10] == 'T';
    SecondsTextReads(d, 'T');
    SecondsHaveNoDot(base);
    assert IsDigit(base[17..19][1]) && base[18] == base[17..19][1];
    hide SecondsText, SecondsShape, IsoInstant, ToInstant, ParsedInstant, SecondsFields;
    NaiveIso(base, d.(micro := 0));
    NothingToNormalize(base);
  }

  lemma CutValue(whole: string, head: string, tail: string)
    requires AllDigits(head) && AllDigits(tail) && whole == head + tail
    ensures AllDigits(whole) && Value(head) * Pow10(|tail|) <= Value(whole) < Value(head) * Pow10(|tail|) + Pow10(|tail|)
  {
    ValueOfConcat(head, tail);
  }

  /** Six digits are exact, fewer scale up, more are cut down to the microsecond below. */
  lemma FractionIsTruncated(f: string)
    requires AllDigits(f)
    ensures |f| <= 6 ==> FractionMicros(f) == Value(f) * Pow10(6 - |f|)
    ensures |f| >= 6 ==>
      var cut := Pow10(|f| - 6);
      FractionMicros(f) * cut <= Value(f) < FractionMicros(f) * cut + cut
  {
    hide Value;
    if |f| >= 6 {
      assert f == f[..6] + f[6..];
      CutValue(f, f[..6], f[6..]);
    }
    if |f| == 6 {
      assert f[..6] == f;
    }
  }

  /** What is printed: `YYYY-MM-DDTHH:MM:SS.ffffffZ`, with the fields of the instant. */
  lemma PrintedForm(t: Instant)
    requires Representable(t)
    ensures var (s, d) := (FormatTimestamp(t), FromInstant(t).value);
            && |s| == 27 && SecondsShape(s[..19]) && s[10] == 'T' && s[19] == '.' && AllDigits(s[20..26]) && s[26] == 'Z'
            && SecondsFields(s[..19]) == d.(micro := 0) && Value(s[20..26]) == d.micro
  {
    var (s, d) := (FormatTimestamp(t), FromInstant(t).value);
    SecondsTextReads(d, 'T');
    SmallPowers();
    ValueOfPad(d.micro, 6);
    assert SecondsText(d, 'T')[10] == 'T';
    hide SecondsText, FromInstant, Pad, Value;
    assert s[..19] == SecondsText(d, 'T') && s[20..26] == Pad(d.micro, 6);
  }

  /** A printed timestamp parses back to the instant it was printed from. */
  lemma TimestampRoundTrip(t: Instant)
    requires FourDigitYear(t)
    ensures ParsedInstant(FormatTimestamp(t)) == Some(t)
  {
    var d := FromInstant(t).value;
    SmallPowers();
    ValueOfPad(d.micro, 6);
    assert Pad(d.micro, 6)[..6] == Pad(d.micro, 6);
    ParseOfFraction(d, Pad(d.micro, 6));
    ToInstantOfFromInstant(t);
  }

  // ---- Bytes (Base16, RFC 4648 section 8) ----

  function HexDigit(n: nat): (c: char)
    requires n < 16
  {
    if n < 10 then '0' + n as char else 'A' + (n - 10) as char
  }

  function HexValue(c: char): (n: Option<nat>)
    ensures n.Some? ==> n.value < 16
  {
    if '0' <= c <= '9' then Some(c as nat - '0' as nat)
    else if 'A' <= c <= 'F' then Some(c as nat - 'A' as nat + 10)
    else if 'a' <= c <= 'f' then Some(c as nat - 'a' as nat + 10)
    else None
  }

  /** `bytes.hex().upper()` */
  function HexUpper(bytes: seq<Byte>): (s: string)
    ensures |s| == 2 * |bytes|
  {
    if bytes == [] then ""
    else [HexDigit(bytes[0] / 16), HexDigit(bytes[0] % 16)] + HexUpper(bytes[1..])
  }

  /** `bytes.fromhex`: whitespace may stand between bytes; None where it raises ValueError. */
  function FromHex(s: string): (r: Option<seq<Byte>>)
  {
    if s == "" then Some([])
    else if IsSpace(s[0]) then FromHex(s[1..])
    else if |s| < 2 then None
    else
      var high, low := HexValue(s[0]), HexValue(s[1]);
      var rest := FromHex(s[2..]);
      if high.Some? && low.Some? && rest.Some? then Some([high.value * 16 + low.value] + rest.value) else None
  }

  lemma HexDigitReads(n: nat)
    requires n < 16
    ensures HexValue(HexDigit(n)) == Some(n) && !IsSpace(HexDigit(n))
  {
  }

  lemma {:induction false} HexRoundTrip(bytes: seq<Byte>)
    ensures FromHex(HexUpper(bytes)) == Some(bytes)
  {
    hide HexDigit, HexValue;
    if bytes != [] {
      HexRoundTrip(bytes[1..]);
      HexDigitReads(bytes[0] / 16);
      HexDigitReads(bytes[0] % 16);
      var s := HexUpper(bytes);
      assert s[2..] == HexUpper(bytes[1..]);
      assert bytes == [bytes[0]] + bytes[1..];
    }
  }

  /** Bytes may be set apart by white space. */
  lemma {:induction false} HexReadsApart(a: seq<Byte>, spaces: string, b: seq<Byte>)
    requires AllSpaces(spaces)
    ensures FromHex(HexUpper(a) + spaces + HexUpper(b)) == Some(a + b)
  {
    var s := HexUpper(a) + spaces + HexUpper(b);
    if a != [] {
      HexReadsApart(a[1..], spaces, b);
      HexDigitReads(a[0] / 16);
      HexDigitReads(a[0] % 16);
      hide HexDigit, HexValue, IsSpace, AllSpaces;
      assert s[2..] == HexUpper(a[1..]) + spaces + HexUpper(b);
      assert a + b == [a[0]] + (a[1..] + b);
    } else if spaces != "" {
      HexReadsApart(a, spaces[1..], b);
      assert IsSpace(spaces[0]);
      hide HexDigit, HexValue, IsSpace, AllSpaces;
      assert s[1..] == HexUpper(a) + spaces[1..] + HexUpper(b);
    } else {
      assert s == HexUpper(b) && a + b == b;
      HexRoundTrip(b);
    }
  }

  function Lower(c: char): char {
    if 'A' <= c <= 'F' then (c as nat + 32) as char else c
  }

  /** Lower-case digits read like upper-case ones. */
  lemma {:induction false} HexReadsAnyCase(s: string, t: string)
    requires |s| == |t| && forall i :: 0 <= i < |s| ==> t[i] in {s[i], Lower(s[i])}
    ensures FromHex(t) == FromHex(s)
  {
    if s != "" {
      SameDigit(s[0], t[0]);
      if IsSpace(s[0]) {
        HexReadsAnyCase(s[1..], t[1..]);
      } else if |s| >= 2 {
        SameDigit(s[1], t[1]);
        hide HexValue, IsSpace, Lower;
        HexReadsAnyCase(s[2..], t[2..]);
      }
    }
  }

  lemma SameDigit(c: char, d: char)
    requires d in {c, Lower(c)}
    ensures HexValue(d) == HexValue(c) && IsSpace(d) == IsSpace(c)
  {
  }

  const HEX_DIGITS := "0123456789ABCDEF"

  /** Two upper-case digits a byte, the high one first. */
  lemma {:induction false} HexSpells(bytes: seq<Byte>, i: nat)
    requires i < |bytes|
    ensures HexUpper(bytes)[2 * i] == HEX_DIGITS[bytes[i] / 16] && HexUpper(bytes)[2 * i + 1] == HEX_DIGITS[bytes[i] % 16]
  {
    HexDigitIsDigit(bytes[0] / 16);
    HexDigitIsDigit(bytes[0] % 16);
    if i > 0 {
      hide HexDigit;
      HexSpells(bytes[1..], i - 1);
      assert HexUpper(bytes)[2..] == HexUpper(bytes[1..]);
    }
  }

  lemma HexDigitIsDigit(n: nat)
    requires n < 16
    ensures HexDigit(n) == HEX_DIGITS[n]
  {
  }

  // ---- The logger's declared offset ----

  function SkipSpaces(s: string, i: nat): (j: nat)
    requires i <= |s|
    ensures i <= j <= |s|
    decreases |s| - i
  {
    if i < |s| && IsSpace(s[i]) then SkipSpaces(s, i + 1) else i
  }

  predicate WordAt(s: string, i: nat, word: string) {
    i + |word| <= |s| && s[i..i + |word|] == word
  }

  /** One match of `timezone\s+offset\s+([+-])(\d{2}):(\d{2})` at position `i`. */
  function OffsetAt(s: string, i: nat): Option<int> {
    if !WordAt(s, i, "timezone") then None else
    var j := SkipSpaces(s, i + 8);
    if j == i + 8 || !WordAt(s, j, "offset") then None else
    var k := SkipSpaces(s, j + 6);
    if k == j + 6 || |s| < k + 6 || s[k] !in {'+', '-'} || s[k + 3] != ':'
       || !AllDigits(s[k + 1..k + 3]) || !AllDigits(s[k + 4..k + 6]) then None else
    var minutes := Value(s[k + 1..k + 3]) * 60 + Value(s[k + 4..k + 6]);
    Some((if s[k] == '+' then 1 else -1) * minutes * 60 * SECOND)
  }

  /** The leftmost match in a comment, as `re.search` finds it. */
  function DeclaredOffset(s: string, i: nat := 0): Option<int>
    decreases |s| - i
  {
    if i >= |s| then None
    else if OffsetAt(s, i).Some? then OffsetAt(s, i)
    else DeclaredOffset(s, i + 1)
  }

  /** The leftmost match counts: nothing before it matches, and without one nothing does. */
  lemma {:induction false} LeftmostMatchCounts(s: string, i: nat) returns (k: nat)
    requires i <= |s|
    ensures i <= k && forall j :: i <= j < k && j < |s| ==> OffsetAt(s, j).None?
    ensures if DeclaredOffset(s, i).Some? then k < |s| && DeclaredOffset(s, i) == OffsetAt(s, k) else k == |s|
    decreases |s| - i
  {
    hide OffsetAt;
    if i == |s| || OffsetAt(s, i).Some? {
      k := i;
    } else {
      k := LeftmostMatchCounts(s, i + 1);
    }
  }

  lemma {:induction false} SpacesAreSkipped(s: string, i: nat, n: nat)
    requires i + n < |s| && (forall k :: i <= k < i + n ==> IsSpace(s[k])) && !IsSpace(s[i + n])
    ensures SkipSpaces(s, i) == i + n
    decreases n
  {
    if n > 0 {
      SpacesAreSkipped(s, i + 1, n - 1);
    }
  }

  lemma SliceOfSlice(s: string, k: nat, a: nat, b: nat)
    requires k + 6 <= |s| && a <= b <= 6
    ensures s[k..k + 6][a..b] == s[k + a..k + b]
  {
    var (x, y) := (s[k..k + 6][a..b], s[k + a..k + b]);
    assert |x| == |y|;
    forall n | 0 <= n < |x|
      ensures x[n] == y[n]
    {
      assert x[n] == s[k..k + 6][a + n] == s[k + a + n];
    }
  }

  lemma PartsMatch(s: string, i: nat, j: nat, k: nat, t: string)
    requires i + 8 < j && j + 6 < k && k + 6 <= |s| && |t| == 6 && s[k..k + 6] == t
    requires s[i..i + 8] == "timezone" && s[j..j + 6] == "offset"
    requires SkipSpaces(s, i + 8) == j && SkipSpaces(s, j + 6) == k
    requires t[0] in {'+', '-'} && t[3] == ':' && AllDigits(t[1..3]) && AllDigits(t[4..6])
    ensures OffsetAt(s, i) == Some(OffsetMicros(t[0], Value(t[1..3]), Value(t[4..6])))
  {
    hide Value, SkipSpaces;
    SliceOfSlice(s, k, 1, 3);
    SliceOfSlice(s, k, 4, 6);
    assert s[k..k + 6][0] == s[k] && s[k..k + 6][3] == s[k + 3];
  }

  lemma SpacesIn(s: string, i: nat, j: nat)
    requires i < j < |s| && AllSpaces(s[i..j]) && !IsSpace(s[j])
    ensures SkipSpaces(s, i) == j
  {
    hide IsSpace;
    assert forall n :: i <= n < j ==> s[n] == s[i..j][n - i];
    SpacesAreSkipped(s, i, j - i);
  }

  /** Wherever the two words and an offset stand, any white space may stand between them, and anything around them. */
  lemma AnySpacingMatches(s: string, i: nat, j: nat, k: nat, sign: char, hours: nat, minutes: nat)
    requires i + 8 < j && j + 6 < k && k + 6 <= |s|
    requires s[i..i + 8] == "timezone" && AllSpaces(s[i + 8..j]) && s[j..j + 6] == "offset" && AllSpaces(s[j + 6..k])
    requires s[k..k + 6] == OffsetText(sign, hours, minutes) && sign in {'+', '-'} && hours < 100 && minutes < 100
    ensures OffsetAt(s, i) == Some(OffsetMicros(sign, hours, minutes))
  {
    SmallPowers();
    ValueOfPad(hours, 2);
    ValueOfPad(minutes, 2);
    OffsetTextParts(sign, hours, minutes);
    var t := OffsetText(sign, hours, minutes);
    assert Value(t[1..3]) == hours && Value(t[4..6]) == minutes;
    assert s[j] == s[j..j + 6][0] == 'o' && s[k] == s[k..k + 6][0] == sign;
    hide OffsetText, Value, Pad, SkipSpaces, OffsetAt, AllSpaces, OffsetMicros;
    SpacesIn(s, i + 8, j);
    SpacesIn(s, j + 6, k);
    PartsMatch(s, i, j, k, t);
  }

  predicate Declares(e: Event) {
    e.Comment? && DeclaredOffset(e.text).Some?
  }

  /** The correction in force before event `k`. */
  function Correction(events: seq<Event>, k: nat): int
    requires k <= |events|
  {
    if k == 0 then 0
    else if Declares(events[k - 1]) then DeclaredOffset(events[k - 1].text).value
    else Correction(events, k - 1)
  }

  function Get(attribute: Option<string>, default: string): string {
    if attribute.Some? then attribute.value else default
  }

  /** The record of one element under a correction; None where the reader raises. */
  function ReadRecord(attributes: Attributes, correction: int): Option<Record> {
    if attributes.timestamp.None? || attributes.rawData.None? then None else
    var parsed := ParsedInstant(attributes.timestamp.value);
    var bytes := FromHex(attributes.rawData.value);
    if parsed.None? || !Representable(parsed.value - correction) || bytes.None? then None else
    Some(Record(parsed.value - correction, Get(attributes.service, "L_Data.ind"),
                bytes.value, Get(attributes.frameFormat, "CommonEmi")))
  }

  /** A missing service reads as an indication and a missing frame format as common EMI. */
  lemma MissingAttributes(attributes: Attributes, correction: int)
    ensures ReadRecord(attributes, correction)
            == ReadRecord(attributes.(
                 service := if attributes.service.Some? then attributes.service else Some("L_Data.ind"),
                 frameFormat := if attributes.frameFormat.Some? then attributes.frameFormat else Some("CommonEmi")), correction)
  {
    hide ParsedInstant, FromHex, Representable;
  }

  predicate Readable(e: Event, correction: int) {
    e.Telegram? ==> ReadRecord(e.attributes, correction).Some?
  }

  predicate AllReadable(events: seq<Event>, k: nat)
    requires k <= |events|
  {
    k == 0 || (AllReadable(events, k - 1) && Readable(events[k - 1], Correction(events, k - 1)))
  }

  /** What the reader yields for one event. */
  function Yielded(e: Event, correction: int): (r: seq<Record>) {
    if e.Telegram? && Readable(e, correction) then [ReadRecord(e.attributes, correction).value] else []
  }

  /** The records of the first `k` events. */
  function Expected(events: seq<Event>, k: nat): seq<Record>
    requires k <= |events|
  {
    if k == 0 then [] else Expected(events, k - 1) + Yielded(events[k - 1], Correction(events, k - 1))
  }

  /** The part of the loop that reads one telegram element. */
  method ReadElement(attributes: Attributes, utcCorrection: int) returns (r: Option<Record>)
    ensures r == ReadRecord(attributes, utcCorrection)
  {
    hide ParsedInstant, Representable, FromHex;
    if attributes.timestamp.None? || attributes.rawData.None? {
      return None;
    }
    var parsed := ParseTimestamp(attributes.timestamp.value);
    var bytes := FromHex(attributes.rawData.value);
    if parsed.None? || !Representable(parsed.value - utcCorrection) || bytes.None? {
      return None;
    }
    r := Some(Record(parsed.value - utcCorrection, Get(attributes.service, "L_Data.ind"),
                     bytes.value, Get(attributes.frameFormat, "CommonEmi")));
  }

  /** Reads a log up to its end, or up to the first element that cannot be read. */
  method IterCommunicationLog(events: seq<Event>) returns (records: seq<Record>, stopped: nat)
    ensures stopped <= |events|
    ensures AllReadable(events, stopped)
    ensures stopped < |events| ==> !Readable(events[stopped], Correction(events, stopped))
    ensures records == Expected(events, stopped)
  {
    hide ReadRecord, DeclaredOffset;
    records, stopped := [], 0;
    var utcCorrection := 0;
    while stopped < |events|
      invariant stopped <= |events|
      invariant AllReadable(events, stopped)
      invariant utcCorrection == Correction(events, stopped)
      invariant records == Expected(events, stopped)
    {
      match events[stopped] {
        case Comment(text) =>
          var declared := DeclaredOffset(text);
          if declared.Some? {
            utcCorrection := declared.value;
          }
        case OtherElement =>
        case Telegram(attributes) =>
          var r := ReadElement(attributes, utcCorrection);
          if r.None? {
            return;
          }
          records := records + [r.value];
      }
      stopped := stopped + 1;
    }
  }

  predicate NoneDeclares(events: seq<Event>) {
    forall e :: e in events ==> !Declares(e)
  }

  /**
   A declaration stays in force up to the next one, and before the first there is no correction:
   `j` is the position of the last declaration before event `k`, or -1.
   */
  lemma {:induction false} LastDeclaration(events: seq<Event>, k: nat) returns (j: int)
    requires k <= |events|
    ensures -1 <= j < k && NoneDeclares(events[j + 1..k])
    ensures j >= 0 ==> Declares(events[j])
    ensures Correction(events, k) == if j < 0 then 0 else DeclaredOffset(events[j].text).value
  {
    hide DeclaredOffset;
    if k == 0 {
      j := -1;
    } else if Declares(events[k - 1]) {
      j := k - 1;
    } else {
      j := LastDeclaration(events, k - 1);
      assert events[j + 1..k] == events[j + 1..k - 1] + [events[k - 1]];
    }
  }

  /** Any correction that follows those rules is the reader's: the rules leave no choice. */
  lemma {:induction false} DeclarationHolds(events: seq<Event>, j: nat, k: nat)
    requires j < k <= |events| && Declares(events[j]) && NoneDeclares(events[j + 1..k])
    ensures Correction(events, k) == DeclaredOffset(events[j].text).value
  {
    hide DeclaredOffset;
    if j + 1 < k {
      assert events[j + 1..k][k - j - 2] == events[k - 1];
      assert events[j + 1..k - 1] <= events[j + 1..k];
      DeclarationHolds(events, j, k - 1);
    }
  }

  /** A record is its printed time less the offset declared last before it. */
  lemma RecordIsShifted(events: seq<Event>, j: nat, k: nat)
    requires j < k < |events| && Declares(events[j]) && NoneDeclares(events[j + 1..k])
    requires events[k].Telegram? && Readable(events[k], Correction(events, k))
    ensures ReadRecord(events[k].attributes, Correction(events, k)).value.timestamp
            == ParsedInstant(events[k].attributes.timestamp.value).value - DeclaredOffset(events[j].text).value
  {
    DeclarationHolds(events, j, k);
  }

  function GiraComment(sign: char, hours: nat, minutes: nat): (s: string)
    ensures |s| == 29
  {
    " timezone offset " + [sign] + Pad(hours, 2) + ":" + Pad(minutes, 2) + " hour "
  }

  lemma MatchOfParts(s: string, sign: char, hours: string, minutes: string)
    requires |s| == 29 && s[1..9] == "timezone" && s[9] == ' ' && s[10..16] == "offset" && s[16] == ' '
    requires s[17] == sign && sign in {'+', '-'} && s[20] == ':'
    requires s[18..20] == hours && s[21..23] == minutes && AllDigits(hours) && AllDigits(minutes)
    ensures OffsetAt(s, 1)
            == Some((if sign == '+' then 1 else -1) * (Value(hours) * 60 + Value(minutes)) * 60 * SECOND)
  {
    hide Value;
    assert s[10..16][0] == 'o';
    assert SkipSpaces(s, 9) == 10 && SkipSpaces(s, 16) == 17;
  }

  lemma NoMatchAtSpace(s: string)
    requires s != "" && s[0] == ' '
    ensures OffsetAt(s, 0).None?
  {
    if |s| >= 8 {
      assert s[0..8][0] == ' ';
    }
  }

  lemma GiraParts(sign: char, hours: nat, minutes: nat)
    ensures var s := GiraComment(sign, hours, minutes);
            && s[0] == ' ' && s[1..9] == "timezone" && s[9] == ' ' && s[10..16] == "offset" && s[16] == ' '
            && s[17] == sign && s[20] == ':' && s[18..20] == Pad(hours, 2) && s[21..23] == Pad(minutes, 2)
  {
    hide Pad;
    var (s, head) := (GiraComment(sign, hours, minutes), " timezone offset ");
    assert s[..17] == head && s[1..9] == head[1..9] && s[10..16] == head[10..16];
    assert head[1..9] == "timezone" && head[10..16] == "offset";
    assert s[18..20] == Pad(hours, 2);
    assert s[21..23] == Pad(minutes, 2);
  }

  lemma SecondPositionMatches(s: string)
    requires |s| > 1 && OffsetAt(s, 0).None? && OffsetAt(s, 1).Some?
    ensures DeclaredOffset(s) == OffsetAt(s, 1)
  {
    hide OffsetAt;
    assert DeclaredOffset(s, 0) == DeclaredOffset(s, 1);
  }

  /** The comment Gira loggers write declares exactly the offset it spells. */
  lemma GiraCommentReads(sign: char, hours: nat, minutes: nat)
    requires sign in {'+', '-'} && hours < 100 && minutes < 100
    ensures DeclaredOffset(GiraComment(sign, hours, minutes))
            == Some((if sign == '+' then 1 else -1) * (hours * 60 + minutes) * 60 * SECOND)
  {
    hide OffsetAt, Pad, Value, GiraComment, DeclaredOffset;
    var s := GiraComment(sign, hours, minutes);
    SmallPowers();
    ValueOfPad(hours, 2);
    ValueOfPad(minutes, 2);
    GiraParts(sign, hours, minutes);
    MatchOfParts(s, sign, Pad(hours, 2), Pad(minutes, 2));
    NoMatchAtSpace(s);
    SecondPositionMatches(s);
  }

  // ---- Writing ----

  function TelegramElement(r: Record, connectionName: string): Event
    requires Representable(r.timestamp)
  {
    Telegram(Attributes(
      Some(FormatTimestamp(r.timestamp)), if connectionName == "" then None else Some(connectionName),
      Some(r.service), Some(r.frameFormat), Some(HexUpper(r.rawData))))
  }

  function Written(records: seq<Record>, connectionName: string): (events: seq<Event>)
    requires forall r :: r in records ==> Representable(r.timestamp)
    ensures |events| == |records|
  {
    seq(|records|, i requires 0 <= i < |records| => TelegramElement(records[i], connectionName))
  }

  method WriteCommunicationLog(records: seq<Record>, connectionName: string)
      returns (events: seq<Event>, count: nat)
    requires forall r :: r in records ==> Representable(r.timestamp)
    ensures events == Written(records, connectionName) && count == |records|
  {
    events, count := [], 0;
    while count < |records|
      invariant count <= |records|
      invariant events == Written(records, connectionName)[..count]
    {
      events := events + [TelegramElement(records[count], connectionName)];
      count := count + 1;
    }
  }

  lemma ElementRoundTrip(r: Record, connectionName: string)
    requires FourDigitYear(r.timestamp)
    ensures TelegramElement(r, connectionName).Telegram?
    ensures ReadRecord(TelegramElement(r, connectionName).attributes, 0) == Some(r)
    ensures TelegramElement(r, connectionName).attributes.connectionName.Some? <==> connectionName != ""
    ensures connectionName != "" ==> TelegramElement(r, connectionName).attributes.connectionName.value == connectionName
  {
    TimestampRoundTrip(r.timestamp);
    HexRoundTrip(r.rawData);
  }

  lemma {:induction false} LogRoundTripPrefix(records: seq<Record>, connectionName: string, k: nat)
    requires k <= |records| && forall r :: r in records ==> Representable(r.timestamp) && FourDigitYear(r.timestamp)
    ensures var events := Written(records, connectionName);
            && Correction(events, k) == 0
            && AllReadable(events, k)
            && Expected(events, k) == records[..k]
  {
    hide ReadRecord, FourDigitYear, Representable, TelegramElement, DeclaredOffset;
    if k > 0 {
      LogRoundTripPrefix(records, connectionName, k - 1);
      ElementRoundTrip(records[k - 1], connectionName);
      assert records[..k] == records[..k - 1] + [records[k - 1]];
    }
  }

  /** A written log reads back, in full, as the records it was written from. */
  lemma LogRoundTrip(records: seq<Record>, connectionName: string)
    requires forall r :: r in records ==> Representable(r.timestamp) && FourDigitYear(r.timestamp)
    ensures var events := Written(records, connectionName);
            && AllReadable(events, |events|)
            && Expected(events, |events|) == records
  {
    LogRoundTripPrefix(records, connectionName, |records|);
    assert records[..|records|] == records;
  }
}
