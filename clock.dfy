/** The countdown display: seconds left shown as "0" + minutes + ":" + two-digit seconds,
    with JavaScript's arithmetic (`Math.floor` for the minutes, the truncating `%` for
    the seconds). */
module Clock {
  import opened Text

  /** JavaScript's `a % b` for b > 0: the remainder takes the sign of a. */
  function JsRemainder(a: int, b: int): (r: int)
    requires b > 0
    ensures a >= 0 ==> 0 <= r < b && a == b * (a / b) + r
    ensures a < 0 ==> -b < r <= 0 && a == b * -((-a) / b) + r
  {
    if a >= 0 then a % b else -((-a) % b)
  }

  /** `convertTime(timeLeft)`. Dafny's `/` by a positive divisor rounds down, as
      `Math.floor(timeLeft / 60)` does. The display always starts with the literal "0";
      its exact layout is stated by `ConvertTimeFormat` and `ReadConvertTime`. */
  function ConvertTime(timeLeft: int): (s: string)
    ensures |s| >= 4 && s[0] == '0'
  {
    var mins := timeLeft / 60;
    var secs := JsRemainder(timeLeft, 60);
    var secsText := if secs < 10 then "0" + IntStr(secs) else IntStr(secs);
    "0" + IntStr(mins) + ":" + secsText
  }

  /** Reads a display of the form "0", minutes, ":", two seconds digits back into seconds. */
  function ReadTime(s: string): Option<int>
  {
    if |s| >= 5 && s[0] == '0' && s[|s| - 3] == ':'
       && AllDigits(s[1..|s| - 3]) && AllDigits(s[|s| - 2..])
    then Some(60 * ParseNat(s[1..|s| - 3]) + ParseNat(s[|s| - 2..]))
    else None
  }

  /** The two decimal digits of a number below 100. */
  function TwoDigits(n: nat): (s: string)
    requires n < 100
    ensures |s| == 2 && AllDigits(s) && ParseNat(s) == n
  {
    var s := [Digit(n / 10), Digit(n % 10)];
    assert s[..1][..0] == [];
    assert ParseNat(s[..1]) == n / 10;
    s
  }

  /** For a time that is not negative the display is "0", the minutes in decimal, ":"
      and the seconds as exactly two digits (a leading "0" below ten). */
  lemma ConvertTimeFormat(t: int)
    requires t >= 0
    ensures ConvertTime(t) == "0" + NatStr(t / 60) + ":" + TwoDigits(t % 60)
  {
    var secs := t % 60;
    if secs >= 10 {
      assert NatStr(secs) == NatStr(secs / 10) + [Digit(secs % 10)];
      assert NatStr(secs / 10) == [Digit(secs / 10)];
    }
  }

  /** The display of a time that is not negative reads back as that time. */
  lemma ReadConvertTime(t: int)
    requires t >= 0
    ensures ReadTime(ConvertTime(t)) == Some(t)
  {
    ConvertTimeFormat(t);
    var m, sec := NatStr(t / 60), TwoDigits(t % 60);
    var s := "0" + m + ":" + sec;
    assert s[1..|s| - 3] == m;
    assert s[|s| - 2..] == sec;
    assert s[|s| - 3] == ':';
    ParseNatStr(t / 60);
  }

  /** Under ten minutes the display has the five characters "0m:ss". */
  lemma ShortTimeLength(t: int)
    requires 0 <= t < 600
    ensures |ConvertTime(t)| == 5
  {
  }

  /** No time left shows "00:00", the text the display is reset to. */
  lemma ConvertTimeZero()
    ensures ConvertTime(0) == "00:00"
  {
  }

  /** A negative time shows a minus sign in both fields. */
  lemma ConvertTimeNegative()
    ensures ConvertTime(-1) == "0-1:0-1"
  {
  }
}
