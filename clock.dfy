/**
 * The elapsed-time display: `formatTime` turns the timer's whole seconds into
 * `MM:SS`, each part written in decimal and left-padded with zeros to two digits.
 * The functions are plain definitions; what they guarantee is stated by the
 * lemmas after them.
 */
module Clock {

  predicate IsDigit(c: char)
  {
    '0' <= c <= '9'
  }

  predicate AllDigits(s: string)
  {
    forall i :: 0 <= i < |s| ==> IsDigit(s[i])
  }

  /** The decimal digit for `d`. */
  function DigitChar(d: nat): (c: char)
    requires d < 10
    ensures IsDigit(c) && c as int - '0' as int == d
  {
    ('0' as int + d) as char
  }

  /** The number that a string of decimal digits denotes (leading zeros allowed). */
  function Value(s: string): nat
    requires AllDigits(s)
  {
    if s == [] then 0 else Value(s[..|s| - 1]) * 10 + (s[|s| - 1] as int - '0' as int)
  }

  /** `n.toString()`: decimal notation without leading zeros. */
  function Digits(n: nat): string
  {
    if n < 10 then [DigitChar(n)] else Digits(n / 10) + [DigitChar(n % 10)]
  }

  /** `s.padStart(width, '0')`: zeros in front until `s` is `width` long. */
  function PadZeros(s: string, width: nat): string
    decreases width - |s|
  {
    if |s| >= width then s else PadZeros(['0'] + s, width)
  }

  /** One part of the display: `n.toString().padStart(2, '0')`. */
  function Pad2(n: nat): string
  {
    PadZeros(Digits(n), 2)
  }

  /** `formatTime(seconds)`: whole minutes, a colon, the remaining seconds. */
  function FormatTime(seconds: nat): string
  {
    Pad2(seconds / 60) + ":" + Pad2(seconds % 60)
  }

  /** The minutes part of a display: everything before the final `:SS`. */
  function MinutesPart(t: string): string
    requires |t| >= 3
  {
    t[..|t| - 3]
  }

  /** The seconds part of a display: its last two characters. */
  function SecondsPart(t: string): string
    requires |t| >= 2
  {
    t[|t| - 2..]
  }

  predicate IsSuffix(a: string, b: string)
  {
    |a| <= |b| && b[|b| - |a|..] == a
  }

  /** Decimal notation is a non-empty digit string without a leading zero, one digit
      long exactly below ten, and it reads back as the number it was made from. */
  lemma {:induction false} DigitsCorrect(n: nat)
    ensures var s := Digits(n);
      |s| >= 1 && AllDigits(s) && (|s| > 1 ==> s[0] != '0')
      && (|s| == 1 <==> n < 10) && (n < 100 ==> |s| <= 2)
      && Value(s) == n
  {
    if n >= 10 {
      DigitsCorrect(n / 10);
      var s := Digits(n);
      assert s[..|s| - 1] == Digits(n / 10);
    }
  }

  /** Zero padding reaches the width, keeps the padded string whole at its end (so
      a string already that long comes back unchanged) and puts only zeros before it. */
  lemma {:induction false} PadZerosShape(s: string, width: nat)
    ensures var r := PadZeros(s, width);
      (|r| == if |s| >= width then |s| else width)
      && IsSuffix(s, r)
      && (forall i :: 0 <= i < |r| - |s| ==> r[i] == '0')
    decreases width - |s|
  {
    if |s| < width {
      PadZerosShape(['0'] + s, width);
      var r := PadZeros(s, width);
      assert r[|r| - |s|..] == (['0'] + s)[1..];
    }
  }

  /** A leading zero does not change the value of a digit string. */
  lemma {:induction false} LeadingZero(s: string)
    requires AllDigits(s)
    ensures AllDigits(['0'] + s) && Value(['0'] + s) == Value(s)
  {
    if s != [] {
      var t := ['0'] + s;
      assert t[..|t| - 1] == ['0'] + s[..|s| - 1];
      LeadingZero(s[..|s| - 1]);
    }
  }

  /** Zero padding keeps a digit string a digit string of the same value. */
  lemma {:induction false} PadZerosValue(s: string, width: nat)
    requires AllDigits(s)
    ensures AllDigits(PadZeros(s, width)) && Value(PadZeros(s, width)) == Value(s)
    decreases width - |s|
  {
    if |s| < width {
      LeadingZero(s);
      PadZerosValue(['0'] + s, width);
    }
  }

  /** Each part of the display is at least two digits, exactly two below 100, ends in
      the full decimal notation of its number and reads back as that number: one
      zero goes before a single digit, and longer notation is left as it is. */
  lemma Pad2Correct(n: nat)
    ensures var r := Pad2(n);
      |r| >= 2 && AllDigits(r) && Value(r) == n
      && (n < 100 ==> |r| == 2)
      && IsSuffix(Digits(n), r)
      && (n < 10 ==> r == ['0'] + Digits(n))
      && (n >= 10 ==> r == Digits(n))
  {
    DigitsCorrect(n);
    PadZerosShape(Digits(n), 2);
    PadZerosValue(Digits(n), 2);
  }

  /** How a display splits back into the two parts it was joined from. */
  lemma {:induction false} SplitDisplay(m: string, s: string)
    requires |m| >= 2 && |s| == 2
    ensures var t := m + ":" + s;
      |t| >= 5 && t[|t| - 3] == ':' && MinutesPart(t) == m && SecondsPart(t) == s
  {
    var t := m + ":" + s;
    assert t[..|t| - 3] == m;
    assert t[|t| - 2..] == s;
  }

  /** The shape of a display of `mins` minutes and `secs` seconds. */
  lemma DisplayShape(mins: nat, secs: nat)
    requires secs < 60
    ensures var t := Pad2(mins) + ":" + Pad2(secs);
      |t| >= 5 && t[|t| - 3] == ':'
      && |MinutesPart(t)| >= 2 && AllDigits(MinutesPart(t)) && Value(MinutesPart(t)) == mins
      && IsSuffix(Digits(mins), MinutesPart(t))
      && |MinutesPart(t)| == (if mins < 100 then 2 else |Digits(mins)|)
      && (mins >= 10 ==> MinutesPart(t) == Digits(mins))
      && |SecondsPart(t)| == 2 && AllDigits(SecondsPart(t)) && Value(SecondsPart(t)) == secs
  {
    Pad2Correct(mins);
    Pad2Correct(secs);
    SplitDisplay(Pad2(mins), Pad2(secs));
  }

  /** The shape of every display: at least two minute digits that spell the whole
      minutes without truncation and with no more zeros than needed to reach two, a
      colon, and exactly two digits for the seconds. */
  lemma FormatTimeShape(seconds: nat)
    ensures var t := FormatTime(seconds);
      |t| >= 5 && t[|t| - 3] == ':'
      && |MinutesPart(t)| >= 2 && AllDigits(MinutesPart(t)) && Value(MinutesPart(t)) == seconds / 60
      && IsSuffix(Digits(seconds / 60), MinutesPart(t))
      && |MinutesPart(t)| == (if seconds / 60 < 100 then 2 else |Digits(seconds / 60)|)
      && (seconds / 60 >= 10 ==> MinutesPart(t) == Digits(seconds / 60))
      && |SecondsPart(t)| == 2 && AllDigits(SecondsPart(t)) && Value(SecondsPart(t)) == seconds % 60
  {
    var mins, secs := seconds / 60, seconds % 60;
    DisplayShape(mins, secs);
    assert FormatTime(seconds) == Pad2(mins) + ":" + Pad2(secs);
  }

  lemma DivMod(seconds: nat, mins: nat, secs: nat)
    requires mins == seconds / 60 && secs == seconds % 60
    ensures mins * 60 + secs == seconds
  {
  }

  /** Reading the two parts of a display back gives the seconds it was made from. */
  lemma FormatTimeRoundTrip(seconds: nat)
    ensures var t := FormatTime(seconds);
      |t| >= 5 && AllDigits(MinutesPart(t)) && AllDigits(SecondsPart(t))
      && Value(MinutesPart(t)) * 60 + Value(SecondsPart(t)) == seconds
  {
    FormatTimeShape(seconds);
    var t := FormatTime(seconds);
    DivMod(seconds, Value(MinutesPart(t)), Value(SecondsPart(t)));
  }

  /** Different elapsed times are shown as different displays. */
  lemma FormatTimeInjective(a: nat, b: nat)
    requires FormatTime(a) == FormatTime(b)
    ensures a == b
  {
    FormatTimeRoundTrip(a);
    FormatTimeRoundTrip(b);
  }

  /** Sample displays: 125 s, 59 s, no time at all, and a round longer than 99 minutes. */
  lemma FormatTimeExamples()
    ensures FormatTime(125) == "02:05"
    ensures FormatTime(59) == "00:59"
    ensures FormatTime(0) == "00:00"
    ensures FormatTime(6005) == "100:05"
  {
  }
}
