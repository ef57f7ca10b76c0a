/**
 * The resend cooldown of the one-time-code widget (src/components/otpform.js):
 * the once-a-second tick, resend eligibility, and the `mm:ss` display with
 * a parser that reads it back.
 */
module OtpCountdown {
  import opened Wrappers
  import opened OtpDigits

  /** `canResend = secondsLeft === 0`: resend is open exactly when the countdown has stopped. */
  predicate CanResend(secondsLeft: nat)
    ensures CanResend(secondsLeft) <==> AfterOneSecond(secondsLeft) == secondsLeft
  {
    secondsLeft == 0
  }

  /** One firing of the interval: `s - 1`, and no interval at all once `s` is 0. */
  function AfterOneSecond(secondsLeft: nat): (next: nat)
    ensures secondsLeft > 0 ==> next + 1 == secondsLeft
    ensures secondsLeft == 0 ==> next == 0
  {
    if secondsLeft == 0 then 0 else secondsLeft - 1
  }

  /** The countdown after `k` seconds have elapsed. */
  function AfterSeconds(secondsLeft: nat, k: nat): (left: nat) {
    if k == 0 then secondsLeft else AfterSeconds(AfterOneSecond(secondsLeft), k - 1)
  }

  /** The countdown falls by exactly one per second and stays at 0 once there. */
  lemma {:induction false} AfterSecondsClosedForm(secondsLeft: nat, k: nat)
    ensures AfterSeconds(secondsLeft, k) == if k < secondsLeft then secondsLeft - k else 0
  {
    if k > 0 {
      AfterSecondsClosedForm(AfterOneSecond(secondsLeft), k - 1);
    }
  }

  /** Resend becomes possible after exactly `duration` seconds, and not one second before. */
  lemma ResendAfterDuration(duration: nat, k: nat)
    ensures CanResend(AfterSeconds(duration, k)) <==> k >= duration
  {
    AfterSecondsClosedForm(duration, k);
  }

  function DigitChar(d: nat): (c: char)
    requires d < 10
    ensures IsDigit(c)
  {
    "0123456789"[d]
  }

  function DigitValue(c: char): (d: nat)
    requires IsDigit(c)
    ensures d < 10 && DigitChar(d) == c
  {
    (c as int - '0' as int) as nat
  }

  /** `String(n)` for a non-negative integer: its decimal digits, without leading zeros. */
  function Decimal(n: nat): (s: string)
    ensures |s| >= 1 && AllDigits(s)
    ensures s[0] == '0' ==> n == 0
  {
    if n < 10 then [DigitChar(n)] else Decimal(n / 10) + [DigitChar(n % 10)]
  }

  /** The value of a string of decimal digits (leading zeros allowed). */
  function ParseDecimal(s: string): (v: nat)
    requires AllDigits(s)
  {
    if s == [] then 0 else 10 * ParseDecimal(s[..|s| - 1]) + DigitValue(s[|s| - 1])
  }

  lemma {:induction false} ParseDecimalOfDecimal(n: nat)
    ensures ParseDecimal(Decimal(n)) == n
  {
    if n >= 10 {
      ParseDecimalOfDecimal(n / 10);
      var s := Decimal(n);
      assert s[..|s| - 1] == Decimal(n / 10);
    }
  }

  /** The number of decimal digits of `n`. */
  lemma {:induction false} DecimalLength(n: nat)
    ensures n < 10 <==> |Decimal(n)| == 1
    ensures 10 <= n < 100 <==> |Decimal(n)| == 2
    ensures n >= 100 <==> |Decimal(n)| >= 3
  {
    if n >= 10 {
      DecimalLength(n / 10);
    }
  }

  /** `s.padStart(width, fill)` */
  function PadStart(s: string, width: nat, fill: char): (r: string)
    ensures |r| == if |s| < width then width else |s|
    ensures r[|r| - |s|..] == s
    ensures forall i :: 0 <= i < |r| - |s| ==> r[i] == fill
  {
    if |s| < width then seq(width - |s|, _ => fill) + s else s
  }

  lemma {:induction false} ParseZeros(z: string)
    requires forall i :: 0 <= i < |z| ==> z[i] == '0'
    ensures AllDigits(z) && ParseDecimal(z) == 0
  {
    if z != [] {
      ParseZeros(z[..|z| - 1]);
    }
  }

  /** Leading zeros do not change the value of a digit string. */
  lemma {:induction false} ParseLeadingZeros(z: string, s: string)
    requires forall i :: 0 <= i < |z| ==> z[i] == '0'
    requires AllDigits(s)
    ensures AllDigits(z + s) && ParseDecimal(z + s) == ParseDecimal(s)
  {
    if s == [] {
      assert z + s == z;
      ParseZeros(z);
    } else {
      ParseLeadingZeros(z, s[..|s| - 1]);
      assert (z + s)[..|z + s| - 1] == z + s[..|s| - 1];
    }
  }

  lemma ParsePadded(n: nat)
    ensures AllDigits(PadStart(Decimal(n), 2, '0'))
    ensures ParseDecimal(PadStart(Decimal(n), 2, '0')) == n
  {
    var d := Decimal(n);
    var p := PadStart(d, 2, '0');
    ParseDecimalOfDecimal(n);
    assert p == p[..|p| - |d|] + d;
    ParseLeadingZeros(p[..|p| - |d|], d);
  }

  /**
   * `mm`: whole minutes, zero-padded; it reads back as `secondsLeft / 60`
   * and is exactly two wide below 100 minutes.
   */
  function Minutes(secondsLeft: nat): (mm: string)
    ensures AllDigits(mm) && ParseDecimal(mm) == secondsLeft / 60
    ensures |mm| >= 2
    ensures |mm| == 2 <==> secondsLeft < 6000
  {
    DecimalLength(secondsLeft / 60);
    ParsePadded(secondsLeft / 60);
    PadStart(Decimal(secondsLeft / 60), 2, '0')
  }

  /** `ss`: the remaining seconds, always two digits, reading back as `secondsLeft % 60`. */
  function Seconds(secondsLeft: nat): (ss: string)
    ensures AllDigits(ss) && ParseDecimal(ss) == secondsLeft % 60
    ensures |ss| == 2
  {
    DecimalLength(secondsLeft % 60);
    ParsePadded(secondsLeft % 60);
    PadStart(Decimal(secondsLeft % 60), 2, '0')
  }

  /** The two fields of `mm:ss` are found again three and two characters from the end. */
  lemma ColonFields(mm: string, ss: string)
    requires |ss| == 2
    ensures |mm + ":" + ss| == |mm| + 3
    ensures (mm + ":" + ss)[..|mm|] == mm
    ensures (mm + ":" + ss)[|mm|] == ':'
    ensures (mm + ":" + ss)[|mm| + 1..] == ss
  {
    var t := mm + ":" + ss;
    assert t == mm + ([':'] + ss);
    assert ([':'] + ss)[1..] == ss;
  }

  /** `mm:ss` built from digit fields has the shape of a display. */
  lemma DisplayShape(mm: string, ss: string)
    requires |mm| >= 2 && AllDigits(mm)
    requires |ss| == 2 && AllDigits(ss)
    ensures var t := mm + ":" + ss;
      && |t| == |mm| + 3 && t[|t| - 3] == ':'
      && AllDigits(t[..|t| - 3]) && AllDigits(t[|t| - 2..])
  {
    ColonFields(mm, ss);
  }

  /**
   * The countdown display `{mm}:{ss}`: digits, a colon third from the end,
   * two digits; five characters wide exactly below 100 minutes.
   */
  function Clock(secondsLeft: nat): (display: string)
    ensures |display| >= 5 && display[|display| - 3] == ':'
    ensures |display| == 5 <==> secondsLeft < 6000
    ensures AllDigits(display[..|display| - 3]) && AllDigits(display[|display| - 2..])
  {
    DisplayShape(Minutes(secondsLeft), Seconds(secondsLeft));
    Minutes(secondsLeft) + ":" + Seconds(secondsLeft)
  }

  /** Reads a display `mm:ss` back as `60 * mm + ss`; None for any other text. */
  function ParseClock(text: string): (seconds: Option<nat>) {
    if |text| >= 4 && text[|text| - 3] == ':'
       && AllDigits(text[..|text| - 3]) && AllDigits(text[|text| - 2..])
    then Some(60 * ParseDecimal(text[..|text| - 3]) + ParseDecimal(text[|text| - 2..]))
    else None
  }

  lemma ParseClockOf(mm: string, ss: string)
    requires |mm| >= 1 && AllDigits(mm)
    requires |ss| == 2 && AllDigits(ss)
    ensures ParseClock(mm + ":" + ss) == Some(60 * ParseDecimal(mm) + ParseDecimal(ss))
  {
    var t := mm + ":" + ss;
    ColonFields(mm, ss);
    assert |t| >= 4 && |t| - 3 == |mm|;
    assert t[..|t| - 3] == mm && t[|t| - 3] == ':' && t[|t| - 2..] == ss;
    assert AllDigits(t[..|t| - 3]) && AllDigits(t[|t| - 2..]);
  }

  /** Whole minutes and the remaining seconds make up the countdown again. */
  lemma MinutesAndSeconds(secondsLeft: nat)
    ensures 60 * (secondsLeft / 60) + secondsLeft % 60 == secondsLeft
  {
  }

  /** The display always reads back as the number of seconds it shows. */
  lemma ClockRoundTrip(secondsLeft: nat)
    ensures ParseClock(Clock(secondsLeft)) == Some(secondsLeft)
  {
    var mm, ss := Minutes(secondsLeft), Seconds(secondsLeft);
    assert Clock(secondsLeft) == mm + ":" + ss;
    ParseClockOf(mm, ss);
    var m, r := ParseDecimal(mm), ParseDecimal(ss);
    assert m == secondsLeft / 60 && r == secondsLeft % 60;
    MinutesAndSeconds(secondsLeft);
    assert 60 * m + r == secondsLeft;
  }
}
