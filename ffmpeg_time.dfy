/**
 * The time helpers of src/lib/ffmpeg.ts: `formatTime` renders a time as
 * `MM:SS.cc` and `parseTime` reads such a string back. Times are modelled as
 * whole centiseconds in exact arithmetic: `FormatTime(t)` is what
 * `formatTime` would print for `t / 100` seconds if `(seconds % 1) * 100`
 * were computed exactly, and `parseTime` yields its number of seconds times
 * 100. JavaScript computes on doubles, where that product can fall just short
 * of a whole number (0.29 gives 28 hundredths); the model does not capture
 * this.
 */
module FfmpegTime {
  import opened Wrappers
  import opened JsText

  /** The time `minutes:seconds.hundredths`, in centiseconds. */
  function Centiseconds(minutes: int, seconds: int, hundredths: int): int {
    minutes * 6000 + seconds * 100 + hundredths
  }

  /** `formatTime(t / 100)`: minutes, seconds and hundredths, each left-padded with zeros to two digits. */
  function FormatTime(t: nat): string {
    TwoDigitField(t / 6000) + ":" + TwoDigitField(t / 100 % 60) + "." + TwoDigitField(t % 100)
  }

  /** The minutes field of a `MM:SS.cc` string: everything before the last six characters. */
  function MinutesField(s: string): string
    requires |s| >= 6
  {
    s[..|s| - 6]
  }

  /** The seconds field of a `MM:SS.cc` string. */
  function SecondsField(s: string): string
    requires |s| >= 5
  {
    s[|s| - 5..|s| - 3]
  }

  /** The hundredths field of a `MM:SS.cc` string. */
  function HundredthsField(s: string): string
    requires |s| >= 2
  {
    s[|s| - 2..]
  }

  /** `s` has the shape `MM:SS.cc`: a minutes field of two or more digits, then exactly two and two. */
  predicate IsTimeText(s: string) {
    |s| >= 8 && s[|s| - 6] == ':' && s[|s| - 3] == '.' &&
    AllDigits(MinutesField(s)) && AllDigits(SecondsField(s)) && AllDigits(HundredthsField(s))
  }

  /**
   * The output of `formatTime` has the shape `MM:SS.cc`; its minutes field is
   * the floor of the seconds over 60, its seconds field lies in 0..59, its
   * hundredths field in 0..99, and together they denote the input time.
   */
  lemma FormatTimeFields(t: nat)
    ensures var s := FormatTime(t);
      && IsTimeText(s)
      && DigitsValue(MinutesField(s)) == t / 6000
      && DigitsValue(SecondsField(s)) < 60
      && DigitsValue(HundredthsField(s)) < 100
      && Centiseconds(DigitsValue(MinutesField(s)), DigitsValue(SecondsField(s)), DigitsValue(HundredthsField(s))) == t
  {
    var m, sec, c := TwoDigitField(t / 6000), TwoDigitField(t / 100 % 60), TwoDigitField(t % 100);
    MinutesSecondsHundredths(t);
    TimeTextOf(m, sec, c);
  }

  /** Gluing a minutes field, two seconds digits and two hundredths digits gives a `MM:SS.cc` string made of them. */
  lemma TimeTextOf(m: string, sec: string, c: string)
    requires |m| >= 2 && |sec| == 2 && |c| == 2
    requires AllDigits(m) && AllDigits(sec) && AllDigits(c)
    ensures var s := m + ":" + sec + "." + c;
      IsTimeText(s) && MinutesField(s) == m && SecondsField(s) == sec && HundredthsField(s) == c
  {
    var s := m + ":" + sec + "." + c;
    assert MinutesField(s) == m;
    assert SecondsField(s) == sec;
    assert HundredthsField(s) == c;
  }

  /** A time splits into whole minutes, the seconds within the minute and the hundredths within the second. */
  lemma MinutesSecondsHundredths(t: nat)
    ensures t / 100 % 60 < 60 && t % 100 < 100
    ensures (t / 6000) * 6000 + (t / 100 % 60) * 100 + t % 100 == t
  {
    var q := t / 100;
    assert t == q * 100 + t % 100;
    assert q == (q / 60) * 60 + q % 60;
    assert t / 6000 == q / 60;
  }

  /**
   * `parseTime(s)` times 100. Unless `s` splits into exactly two parts on
   * `:` the result is 0; otherwise it is `parseInt(mins) * 60 + parseInt(secs)
   * + parseInt(ms || "0") / 100` seconds, where `secs` and `ms` are the first
   * two pieces of the second part split on `.`. `None` is NaN: some piece has
   * no leading digits.
   */
  function ParseTime(timeStr: string): (r: Option<int>)
    ensures |Split(timeStr, ':')| != 2 ==> r == Some(0)
  {
    var parts := Split(timeStr, ':');
    if |parts| == 2 then ParseMinutesSeconds(parts[0], parts[1]) else Some(0)
  }

  /**
   * The two-part case of `parseTime`: `mins` before the colon, `secMs` after
   * it. A missing or empty hundredths piece is replaced by "0" (`ms || "0"`).
   */
  function ParseMinutesSeconds(mins: string, secMs: string): Option<int> {
    var pieces := Split(secMs, '.');
    var m, sec := ParseInt(mins), ParseInt(pieces[0]);
    var c := ParseInt(if |pieces| >= 2 && pieces[1] != [] then pieces[1] else "0");
    if m.Some? && sec.Some? && c.Some? then Some(Centiseconds(m.value, sec.value, c.value)) else None
  }

  /** `parseTime("m:s.c")` is m minutes, s seconds and c hundredths; an empty `c` counts as 0. */
  lemma ParseTimeWithHundredths(m: string, sec: string, c: string)
    requires m != [] && sec != [] && AllDigits(m) && AllDigits(sec) && AllDigits(c)
    ensures ParseTime(m + ":" + sec + "." + c) == Some(Centiseconds(DigitsValue(m), DigitsValue(sec), DigitsValue(c)))
  {
    DotPartValue(m, sec, c);
    ColonRest(m, sec, c);
    ColonSplit(m + ":" + sec + "." + c, m, sec + "." + c);
  }

  /** `m:s.c` is `m`, a colon, and the rest `s.c`. */
  lemma ColonRest(m: string, sec: string, c: string)
    ensures m + ":" + sec + "." + c == m + ":" + (sec + "." + c)
  {
  }

  /** A digit string, a colon and a colon-free rest: `parseTime` takes its two-part case on them. */
  lemma ColonSplit(s: string, m: string, rest: string)
    requires AllDigits(m) && ':' !in rest && s == m + ":" + rest
    ensures ParseTime(s) == ParseMinutesSeconds(m, rest)
  {
    NoSeparatorInDigits(m);
    SplitTwo(m, ':', rest);
  }

  /** The two-part case on `m` and `s.c`, all digit strings. */
  lemma DotPartValue(m: string, sec: string, c: string)
    requires m != [] && sec != [] && AllDigits(m) && AllDigits(sec) && AllDigits(c)
    ensures ':' !in sec + "." + c
    ensures ParseMinutesSeconds(m, sec + "." + c) == Some(Centiseconds(DigitsValue(m), DigitsValue(sec), DigitsValue(c)))
  {
    NoSeparatorInDigits(sec);
    NoSeparatorInDigits(c);
    SplitTwo(sec, '.', c);
    ParseDigitsOf(m);
    ParseDigitsOf(sec);
    if c != [] {
      ParseDigitsOf(c);
    }
    MinutesSecondsHundredthsValue(m, sec + "." + c, sec, c, DigitsValue(m), DigitsValue(sec), DigitsValue(c));
  }

  /** `parseTime("m:s")`, without a `.c` part, is m minutes and s seconds. */
  lemma ParseTimeWithoutHundredths(m: string, sec: string)
    requires m != [] && sec != [] && AllDigits(m) && AllDigits(sec)
    ensures ParseTime(m + ":" + sec) == Some(Centiseconds(DigitsValue(m), DigitsValue(sec), 0))
  {
    NoSeparatorInDigits(sec);
    ColonSplit(m + ":" + sec, m, sec);
    SplitWithout(sec, '.');
    ParseDigitsOf(m);
    ParseDigitsOf(sec);
    MinutesSecondsValue(m, sec, DigitsValue(m), DigitsValue(sec));
  }

  /** The two-part case when the part after the colon has no `.`: minutes and seconds. */
  lemma MinutesSecondsValue(mins: string, secMs: string, m: int, sec: int)
    requires Split(secMs, '.') == [secMs]
    requires ParseInt(mins) == Some(m) && ParseInt(secMs) == Some(sec)
    ensures ParseMinutesSeconds(mins, secMs) == Some(Centiseconds(m, sec, 0))
  {
    ParseZero();
  }

  /** The two-part case when the part after the colon is `secs.ms`. */
  lemma MinutesSecondsHundredthsValue(mins: string, secMs: string, secs: string, ms: string, m: int, sec: int, c: int)
    requires Split(secMs, '.') == [secs, ms]
    requires ParseInt(mins) == Some(m) && ParseInt(secs) == Some(sec)
    requires ms != [] ==> ParseInt(ms) == Some(c)
    requires ms == [] ==> c == 0
    ensures ParseMinutesSeconds(mins, secMs) == Some(Centiseconds(m, sec, c))
  {
    if ms == [] {
      ParseZero();
    }
  }

  lemma ParseDigitsOf(s: string)
    requires s != [] && AllDigits(s)
    ensures ParseInt(s) == Some(DigitsValue(s))
  {
    ParseDigits(s);
  }

  lemma NoSeparatorInDigits(s: string)
    requires AllDigits(s)
    ensures ':' !in s && '.' !in s
  {
  }

  /** Round trip: every non-negative whole number of centiseconds reads back unchanged. */
  lemma ParseFormatTime(t: nat)
    ensures ParseTime(FormatTime(t)) == Some(t)
  {
    var m, sec, c := TwoDigitField(t / 6000), TwoDigitField(t / 100 % 60), TwoDigitField(t % 100);
    assert FormatTime(t) == m + ":" + sec + "." + c;
    ParseTimeWithHundredths(m, sec, c);
    FieldsDenoteTime(t);
  }

  /** The three fields `formatTime` prints add up to the time they were computed from. */
  lemma FieldsDenoteTime(t: nat)
    ensures Centiseconds(DigitsValue(TwoDigitField(t / 6000)), DigitsValue(TwoDigitField(t / 100 % 60)), DigitsValue(TwoDigitField(t % 100))) == t
  {
    MinutesSecondsHundredths(t);
  }
}
