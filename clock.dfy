/** The two countdown renderings: the quiz header of `Quiz.jsx` pads the
    seconds with `("0" + s).slice(-2)`, while `formatTime` of `Register.jsx`
    and `VerifyResetOtp.jsx` prefixes a '0' below ten. */
module Clock {
  import opened Text

  /** `str.slice(-2)`: the last two characters, or all of a shorter string. */
  function LastTwo(s: string): (r: string)
    ensures |r| <= 2
  {
    if |s| >= 2 then s[|s| - 2..] else s
  }

  /** What `slice(-2)` keeps is an ending of the string: two characters
      long, or the whole string when shorter. */
  lemma LastTwoIsEnding(s: string)
    ensures |LastTwo(s)| == if |s| >= 2 then 2 else |s|
    ensures s == s[..|s| - |LastTwo(s)|] + LastTwo(s)
  {
    assert s[..|s| - |LastTwo(s)|] + s[|s| - |LastTwo(s)|..] == s;
  }

  /** What both renderings show: digits, then ':', then exactly two digits. */
  predicate ClockText(r: string) {
    |r| >= 4 && r[|r| - 3] == ':' && forall i :: 0 <= i < |r| && i != |r| - 3 ==> IsDigit(r[i])
  }

  /** Minutes in digits, ':' and a two-digit seconds field make a clock text. */
  lemma ClockTextOf(mins: string, secs: string)
    requires mins != [] && forall i :: 0 <= i < |mins| ==> IsDigit(mins[i])
    requires |secs| == 2 && forall i :: 0 <= i < 2 ==> IsDigit(secs[i])
    ensures ClockText(mins + ":" + secs)
  {
    var r := mins + ":" + secs;
    forall i | 0 <= i < |r| && i != |r| - 3 ensures IsDigit(r[i]) {
      if i < |mins| { assert r[i] == mins[i]; } else { assert r[i] == secs[i - |mins| - 1]; }
    }
  }

  /** The quiz header: minutes, ':', seconds as two digits. */
  function QuizClock(t: nat): (r: string)
    ensures ClockText(r)
  {
    var secs := LastTwo("0" + Digits(t % 60));
    PaddedSeconds(t % 60);
    SecondsField(t);
    ClockTextOf(Digits(t / 60), secs);
    Digits(t / 60) + ":" + secs
  }

  /** `formatTime(seconds)` of the registration and reset-code pages. */
  function FormatTime(t: nat): (r: string)
    ensures ClockText(r)
  {
    var secs := (if t % 60 < 10 then "0" else "") + Digits(t % 60);
    SecondsField(t);
    ClockTextOf(Digits(t / 60), secs);
    assert Digits(t / 60) + ":" + secs == Digits(t / 60) + ":" + (if t % 60 < 10 then "0" else "") + Digits(t % 60);
    Digits(t / 60) + ":" + (if t % 60 < 10 then "0" else "") + Digits(t % 60)
  }

  /** The seconds field of `formatTime` always has exactly two digits. */
  lemma SecondsField(t: nat)
    ensures var secs := (if t % 60 < 10 then "0" else "") + Digits(t % 60);
      |secs| == 2 && (forall i :: 0 <= i < 2 ==> IsDigit(secs[i]))
  {
    if t % 60 < 10 { DigitsOfSmall(t % 60); } else { DigitsOfTwoDigit(t % 60); }
  }

  lemma PaddedSeconds(m: nat)
    requires m < 60
    ensures LastTwo("0" + Digits(m)) == (if m < 10 then "0" else "") + Digits(m)
  {
    if m < 10 { DigitsOfSmall(m); } else { DigitsOfTwoDigit(m); }
  }

  /** Both renderings agree on every non-negative number of seconds. */
  lemma QuizClockIsFormatTime(t: nat)
    ensures QuizClock(t) == FormatTime(t)
  {
    var mins, secs := Digits(t / 60), t % 60;
    PaddedSeconds(secs);
    var pad := if secs < 10 then "0" else "";
    assert QuizClock(t) == mins + ":" + (pad + Digits(secs));
    assert FormatTime(t) == mins + ":" + pad + Digits(secs);
  }

  /** Reading the display back: the minutes before ':' times 60 plus the two
      seconds digits after it give the number of seconds shown. */
  lemma FormatTimeRoundTrip(t: nat)
    ensures ':' in FormatTime(t)
    ensures var m := Before(FormatTime(t), ':');
            var s := After(FormatTime(t), ':');
      && |s| == 2
      && (forall i :: 0 <= i < |m| ==> IsDigit(m[i]))
      && (forall i :: 0 <= i < |s| ==> IsDigit(s[i]))
      && ParseDigits(s) < 60
      && ParseDigits(m) * 60 + ParseDigits(s) == t
  {
    var secs := (if t % 60 < 10 then "0" else "") + Digits(t % 60);
    assert FormatTime(t) == Digits(t / 60) + [':'] + secs;
    SplitAtFirst(Digits(t / 60), ':', secs);
    SecondsField(t);
    ParseDigitsOfDigits(t / 60);
    ParseDigitsOfDigits(t % 60);
    if t % 60 < 10 {
      DigitsOfSmall(t % 60);
      assert secs[..1] == "0";
      assert ParseDigits(secs) == ParseDigits(Digits(t % 60));
    } else {
      assert secs == Digits(t % 60);
    }
    assert ':' in FormatTime(t) by { assert FormatTime(t)[|Digits(t / 60)|] == ':'; }
  }
}
