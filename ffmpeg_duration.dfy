/**
 * How the ffmpeg engine reads a time duration option such as `-ss` or `-t`.
 * The engine is not part of this model; this module states its documented
 * duration syntax (the "Time duration" section of the ffmpeg-utils manual)
 * so that the argument lists the pages build can be given a meaning:
 *
 *   `[-][HH:]MM:SS[.m...]` with MM and SS of at most two digits, each at most 59
 *   `[-]S+[.m...]`
 *
 * The fraction `m...` is decimal, read to the microsecond; more digits are
 * ignored. The unit suffixes `s`, `ms` and `us` are not modelled: a string
 * carrying one reads as `None`, like any malformed duration. Durations are in
 * microseconds.
 */
module FfmpegDuration {
  import opened Wrappers
  import opened JsText
  import opened FfmpegTime

  const MicrosPerSecond: int := 1000000

  /** The duration `s` denotes, or `None` when ffmpeg rejects it. */
  function ReadDuration(s: string): Option<int> {
    if s != [] && s[0] == '-' then
      var d := ReadUnsigned(s[1..]);
      if d.Some? then Some(-d.value) else None
    else ReadUnsigned(s)
  }

  function ReadUnsigned(s: string): Option<int> {
    var parts := Split(s, ':');
    if |parts| == 1 then
      var sf := SecondsAndFraction(s);
      if sf.Some? && sf.value.0 != [] && AllDigits(sf.value.0) then
        Some(DigitsValue(sf.value.0) * MicrosPerSecond + FractionMicros(sf.value.1, 100000))
      else None
    else if |parts| == 2 then Clock([], parts[0], parts[1])
    else if |parts| == 3 && parts[0] != [] then Clock(parts[0], parts[1], parts[2])
    else None
  }

  /** `SS[.m...]` cut at its point: the seconds digits and the fraction digits (empty when there is no point). */
  function SecondsAndFraction(sf: string): Option<(string, string)> {
    var pieces := Split(sf, '.');
    if |pieces| == 1 then Some((pieces[0], []))
    else if |pieces| == 2 && AllDigits(pieces[1]) then Some((pieces[0], pieces[1]))
    else None
  }

  /** A minutes or seconds field of the clock form: one or two digits, at most 59. */
  predicate ClockField(f: string) {
    1 <= |f| <= 2 && AllDigits(f) && DigitsValue(f) <= 59
  }

  /** `[HH:]MM:SS[.m...]`, with `hours` empty when there is no `HH:`. */
  function Clock(hours: string, minutes: string, secondsFraction: string): Option<int> {
    var sf := SecondsAndFraction(secondsFraction);
    if AllDigits(hours) && ClockField(minutes) && sf.Some? && ClockField(sf.value.0) then
      Some(ClockMicros(DigitsValue(hours), DigitsValue(minutes), DigitsValue(sf.value.0))
        + FractionMicros(sf.value.1, 100000))
    else None
  }

  function ClockMicros(h: int, m: int, s: int): int {
    ((h * 60 + m) * 60 + s) * MicrosPerSecond
  }

  /** The microseconds a fraction's digits denote; `scale` is the weight of the first digit. */
  function FractionMicros(digits: string, scale: nat): int
    decreases scale
  {
    if digits == [] || scale == 0 then 0
    else (digits[0] as int - '0' as int) * scale + FractionMicros(digits[1..], scale / 10)
  }

  // ---------------------------------------------------------------------------
  // Facts about the reader, layer by layer
  // ---------------------------------------------------------------------------

  /** Without a leading `-` the duration is unsigned. */
  lemma Unsigned(s: string)
    requires s != [] && IsDigit(s[0])
    ensures ReadDuration(s) == ReadUnsigned(s)
  {
  }

  /** Two colon-free pieces: the `MM:SS` form. */
  lemma TwoColonParts(a: string, b: string)
    requires ':' !in a && ':' !in b
    ensures ReadUnsigned(a + ":" + b) == Clock([], a, b)
  {
    SplitTwo(a, ':', b);
  }

  /** Three colon-free pieces, the first non-empty: the `HH:MM:SS` form. */
  lemma ThreeColonParts(a: string, b: string, c: string)
    requires ':' !in a && ':' !in b && ':' !in c && a != []
    ensures ReadUnsigned(a + ":" + b + ":" + c) == Clock(a, b, c)
  {
    assert a + ":" + b + ":" + c == a + [':'] + (b + [':'] + c);
    SplitAfter(a, ':', b + [':'] + c);
    SplitTwo(b, ':', c);
  }

  /** A piece without a colon whose seconds are digits: the `S+[.m...]` form. */
  lemma NoColon(s: string, whole: string, frac: string, v: int)
    requires ':' !in s && SecondsAndFraction(s) == Some((whole, frac))
    requires whole != [] && AllDigits(whole)
    requires v == DigitsValue(whole) * MicrosPerSecond + FractionMicros(frac, 100000)
    ensures ReadUnsigned(s) == Some(v)
  {
    SplitWithout(s, ':');
  }

  lemma WithPoint(a: string, b: string)
    requires '.' !in a && AllDigits(b)
    ensures SecondsAndFraction(a + "." + b) == Some((a, b))
  {
    NoSeparatorInDigits(b);
    SplitTwo(a, '.', b);
  }

  lemma WithoutPoint(a: string)
    requires '.' !in a
    ensures SecondsAndFraction(a) == Some((a, []))
  {
    SplitWithout(a, '.');
  }

  /** One or two fraction digits after the point. */
  lemma FractionOfDigits(f: string)
    requires 1 <= |f| <= 2 && AllDigits(f)
    ensures |f| == 1 ==> FractionMicros(f, 100000) == DigitsValue(f) * 100000
    ensures |f| == 2 ==> FractionMicros(f, 100000) == DigitsValue(f) * 10000
  {
    if |f| == 1 {
      DigitsValueOne(f);
    } else {
      DigitsValueTwo(f);
      assert f[1..][1..] == [];
    }
  }

  /** `MM:SS.cc`, read as a clock: minutes, seconds and hundredths. */
  lemma ReadMinutesSeconds(s: string, m: string, sec: string, c: string, v: int)
    requires ClockField(m) && ClockField(sec) && |c| == 2 && AllDigits(c)
    requires s == m + ":" + sec + "." + c
    requires v == ClockMicros(0, DigitsValue(m), DigitsValue(sec)) + DigitsValue(c) * 10000
    ensures ReadDuration(s) == Some(v)
  {
    var rest := sec + "." + c;
    ColonRest(m, sec, c);
    NoSeparatorInDigits(m);
    NoSeparatorInDigits(sec);
    NoSeparatorInDigits(c);
    SplitTwo(m, ':', rest);
    WithPoint(sec, c);
    FractionOfDigits(c);
    ReadTwoFields(s, m, rest, sec, c, v);
  }

  /** A string that splits into `MM` and `SS[.m...]` reads as that many minutes and seconds. */
  lemma ReadTwoFields(s: string, m: string, rest: string, sec: string, frac: string, v: int)
    requires Split(s, ':') == [m, rest] && s == m + ":" + rest
    requires SecondsAndFraction(rest) == Some((sec, frac))
    requires ClockField(m) && ClockField(sec)
    requires v == ClockMicros(0, DigitsValue(m), DigitsValue(sec)) + FractionMicros(frac, 100000)
    ensures ReadDuration(s) == Some(v)
  {
    assert s[0] == m[0];
    ClockOf([], m, rest, sec, frac, v);
  }

  /** The clock form, once its seconds field is cut from its fraction. */
  lemma ClockOf(h: string, m: string, sf: string, sec: string, frac: string, v: int)
    requires SecondsAndFraction(sf) == Some((sec, frac))
    requires AllDigits(h) && ClockField(m) && ClockField(sec)
    requires v == ClockMicros(DigitsValue(h), DigitsValue(m), DigitsValue(sec)) + FractionMicros(frac, 100000)
    ensures Clock(h, m, sf) == Some(v)
  {
  }

  /** `HH:MM:SS` with digit fields and no fraction is read by the clock form. */
  lemma ReadThreeFields(s: string, h: string, m: string, sec: string)
    requires h != [] && AllDigits(h) && AllDigits(m) && AllDigits(sec)
    requires s == h + ":" + m + ":" + sec
    ensures ReadDuration(s) == Clock(h, m, sec)
  {
    NoSeparatorInDigits(h);
    NoSeparatorInDigits(m);
    NoSeparatorInDigits(sec);
    Unsigned(s);
    ThreeColonParts(h, m, sec);
  }

  /** The clock form without a fraction: hours, minutes and seconds when both of the last two are clock fields, else rejected. */
  lemma ClockWithoutFraction(h: string, m: string, sec: string, hv: int, mv: int, sv: int)
    requires AllDigits(h) && ClockField(m) && AllDigits(sec)
    requires DigitsValue(h) == hv && DigitsValue(m) == mv && DigitsValue(sec) == sv
    ensures ClockField(sec) ==> Clock(h, m, sec) == Some(ClockMicros(hv, mv, sv))
    ensures !ClockField(sec) ==> Clock(h, m, sec) == None
  {
    NoSeparatorInDigits(sec);
    WithoutPoint(sec);
    if ClockField(sec) {
      ClockOf(h, m, sec, sec, [], ClockMicros(hv, mv, sv));
    }
  }

  /** A whole number of seconds with one or two decimals, or none, read as `S+[.m...]`. */
  lemma ReadSeconds(cs: nat, v: int)
    requires v == cs * 10000
    ensures ReadDuration(UnsignedHundredths(cs)) == Some(v)
  {
    var whole, frac := NatToString(cs / 100), FractionText(cs % 100);
    if frac == [] {
      assert whole + frac == whole;
      ReadWhole(UnsignedHundredths(cs), v);
    } else {
      var digits := frac[1..];
      assert whole + frac == whole + "." + digits;
      FractionOfDigits(digits);
      FractionDigitsValue(cs % 100);
      ReadPointed(UnsignedHundredths(cs), whole, digits, v);
    }
  }

  /** Digits alone are whole seconds. */
  lemma ReadWhole(s: string, v: int)
    requires s != [] && AllDigits(s) && v == DigitsValue(s) * MicrosPerSecond
    ensures ReadDuration(s) == Some(v)
  {
    NoSeparatorInDigits(s);
    Unsigned(s);
    WithoutPoint(s);
    NoColon(s, s, [], v);
  }

  /** Digits, a point and digits are seconds and a fraction of a second. */
  lemma ReadPointed(s: string, whole: string, digits: string, v: int)
    requires whole != [] && AllDigits(whole) && AllDigits(digits) && s == whole + "." + digits
    requires v == DigitsValue(whole) * MicrosPerSecond + FractionMicros(digits, 100000)
    ensures ReadDuration(s) == Some(v)
  {
    NoSeparatorInDigits(whole);
    NoSeparatorInDigits(digits);
    Unsigned(s);
    WithPoint(whole, digits);
    NoColon(s, whole, digits, v);
  }

  /** The digits `FractionText` prints after the point, as microseconds. */
  lemma FractionDigitsValue(h: nat)
    requires 0 < h < 100
    ensures var digits := FractionText(h)[1..];
      (|digits| == 1 ==> DigitsValue(digits) * 100000 == h * 10000) &&
      (|digits| == 2 ==> DigitsValue(digits) * 10000 == h * 10000)
  {
    var digits := FractionText(h)[1..];
    if h % 10 == 0 {
      assert digits == [DigitChar(h / 10)];
      DigitsValueOne(digits);
    } else {
      assert digits == [DigitChar(h / 10), DigitChar(h % 10)];
      DigitsValueTwo(digits);
    }
  }

  /** `x.toString()` of a duration with at most two decimals reads back, through `S+[.m...]`, as that duration. */
  lemma ReadNumberText(cs: int)
    ensures ReadDuration(HundredthsToString(cs)) == Some(cs * 10000)
  {
    if cs < 0 {
      ReadNegativeText(cs);
    } else {
      assert HundredthsToString(cs) == UnsignedHundredths(cs);
      ReadSeconds(cs, cs * 10000);
    }
  }

  lemma ReadNegativeText(cs: int)
    requires cs < 0
    ensures ReadDuration(HundredthsToString(cs)) == Some(cs * 10000)
  {
    ReadSeconds(-cs, -(cs * 10000));
    ReadNegative(UnsignedHundredths(-cs), -(cs * 10000), cs * 10000);
  }

  /** A `-` before an unsigned duration negates it. */
  lemma ReadNegative(u: string, x: int, v: int)
    requires u != [] && IsDigit(u[0])
    requires ReadDuration(u) == Some(x) && v == -x
    ensures ReadDuration("-" + u) == Some(v)
  {
    assert ("-" + u)[1..] == u;
    Unsigned(u);
  }

  // ---------------------------------------------------------------------------
  // The start position of a trim
  // ---------------------------------------------------------------------------

  /**
   * `formatTime(t)` read as a duration: under one hour it is exactly `t`.
   * (From one hour on, the minutes field exceeds 59 and ffmpeg rejects it.)
   */
  lemma ReadFormatTime(t: nat)
    requires t < 360000
    ensures ReadDuration(FormatTime(t)) == Some(t * 10000)
  {
    UnderAnHour(t);
    ClockArithmetic(t);
    ReadPrintedFields(t / 6000, t / 100 % 60, t % 100, t * 10000);
  }

  /** Minutes and seconds below 60 and hundredths below 100, printed as `formatTime` prints them, read back as a clock. */
  lemma ReadPrintedFields(mm: nat, ss: nat, cc: nat, v: int)
    requires mm < 60 && ss < 60 && cc < 100 && v == ClockMicros(0, mm, ss) + cc * 10000
    ensures ReadDuration(TwoDigitField(mm) + ":" + TwoDigitField(ss) + "." + TwoDigitField(cc)) == Some(v)
  {
    ClockFieldBelow60(mm);
    ClockFieldBelow60(ss);
    var m, sec, c := TwoDigitField(mm), TwoDigitField(ss), TwoDigitField(cc);
    ReadMinutesSeconds(m + ":" + sec + "." + c, m, sec, c, v);
  }

  lemma UnderAnHour(t: nat)
    requires t < 360000
    ensures t / 6000 < 60 && t / 100 % 60 < 60 && t % 100 < 100
  {
  }

  /** A number below 60, printed in two digits, is a clock field. */
  lemma ClockFieldBelow60(n: nat)
    requires n < 60
    ensures ClockField(TwoDigitField(n))
  {
  }

  /** Minutes, seconds and hundredths of a time add up to the time. */
  lemma ClockArithmetic(t: nat)
    ensures ClockMicros(0, t / 6000, t / 100 % 60) + t % 100 * 10000 == t * 10000
  {
    MinutesSecondsHundredths(t);
  }

  /** `formatTime(t).replace(".", ":")`. */
  function ColonTime(t: nat): string {
    ReplaceFirst(FormatTime(t), '.', ":")
  }

  /** The first point of `MM:SS.cc` becomes a colon, giving `MM:SS:cc`. */
  lemma ColonTimeFields(t: nat)
    ensures ColonTime(t) == TwoDigitField(t / 6000) + ":" + TwoDigitField(t / 100 % 60) + ":" + TwoDigitField(t % 100)
  {
    var m, sec, c := TwoDigitField(t / 6000), TwoDigitField(t / 100 % 60), TwoDigitField(t % 100);
    NoSeparatorInDigits(m);
    NoSeparatorInDigits(sec);
    assert FormatTime(t) == m + ":" + sec + ['.'] + c;
    ReplaceFirstAfter(m + ":" + sec, '.', c, ":");
  }

  /**
   * `MM:SS:cc` reads as `HH:MM:SS`: the minutes count as hours, the seconds
   * as minutes and the hundredths as seconds. With 60 hundredths or more the
   * last field is out of range and the duration is rejected.
   */
  lemma ReadColonTime(t: nat)
    ensures t % 100 < 60 ==> ReadDuration(ColonTime(t)) == Some(ClockMicros(t / 6000, t / 100 % 60, t % 100))
    ensures t % 100 >= 60 ==> ReadDuration(ColonTime(t)) == None
  {
    var m, sec, c := TwoDigitField(t / 6000), TwoDigitField(t / 100 % 60), TwoDigitField(t % 100);
    ColonTimeFields(t);
    ReadThreeFields(ColonTime(t), m, sec, c);
    MinutesSecondsHundredths(t);
    ClockFieldBelow60(t / 100 % 60);
    ClockWithoutFraction(m, sec, c, t / 6000, t / 100 % 60, t % 100);
  }

  /**
   * Every start after zero is misplaced: `formatTime(t).replace(".", ":")`
   * never reads back as `t`. With 1.5 seconds, for instance, `00:01:50` is
   * read as 1 minute 50 seconds.
   */
  lemma ColonTimeMisread(t: nat)
    requires t > 0
    ensures ReadDuration(ColonTime(t)) != Some(t * 10000)
  {
    ReadColonTime(t);
    if t % 100 < 60 {
      MinutesSecondsHundredths(t);
      ClockDiffers(t / 6000, t / 100 % 60, t % 100, t);
    }
  }

  /** Minutes, seconds and hundredths read as hours, minutes and seconds give a longer duration, unless all are zero. */
  lemma ClockDiffers(a: nat, b: nat, c: nat, t: nat)
    requires t == a * 6000 + b * 100 + c && t > 0
    ensures ClockMicros(a, b, c) != t * 10000
  {
  }
}
