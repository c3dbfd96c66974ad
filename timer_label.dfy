/** The countdown label `_printTimer` shows: whole minutes, a colon, and the
    remaining seconds padded to two digits.  JavaScript semantics are kept:
    `Math.floor(s / 60)` rounds down, `s % 60` takes the sign of `s` (a
    negative multiple of 60 gives `-0`), and `toLocaleString` prints that sign,
    `-0` included, so a tick that runs past zero shows a negative label. */
module TimerLabel {
  import opened Wrappers

  predicate IsDigit(c: char) {
    '0' <= c <= '9'
  }

  predicate AllDigits(s: string) {
    forall k :: 0 <= k < |s| ==> IsDigit(s[k])
  }

  function DigitChar(d: nat): (c: char)
    requires d < 10
    ensures IsDigit(c)
  {
    ('0' as int + d) as char
  }

  function DigitValue(c: char): (d: nat)
    requires IsDigit(c)
    ensures d < 10
  {
    c as int - '0' as int
  }

  /** The decimal numeral of `n`, as JavaScript prints a non-negative integer. */
  function NatToString(n: nat): (s: string)
    ensures |s| >= 1 && AllDigits(s)
    decreases n
  {
    if n < 10 then [DigitChar(n)] else NatToString(n / 10) + [DigitChar(n % 10)]
  }

  /** The value of a numeral (most significant digit first). */
  function NumeralValue(s: string): nat
    requires AllDigits(s)
    decreases |s|
  {
    if |s| == 0 then 0 else NumeralValue(s[..|s| - 1]) * 10 + DigitValue(s[|s| - 1])
  }

  lemma {:induction false} NumeralOfNatToString(n: nat)
    ensures NumeralValue(NatToString(n)) == n
    decreases n
  {
    if n >= 10 {
      NumeralOfNatToString(n / 10);
      var s := NatToString(n);
      assert s[..|s| - 1] == NatToString(n / 10);
    }
  }

  /** JavaScript's string conversion of an integer: a minus sign exactly for
      a negative value, then the digits of its magnitude. */
  function IntToString(i: int): (s: string)
    ensures |s| >= 1 && ((i < 0) <==> s[0] == '-')
    ensures var digits := if i < 0 then s[1..] else s;
      AllDigits(digits) && NumeralValue(digits) == if i < 0 then -i else i
  {
    var magnitude := if i < 0 then -i else i;
    NumeralOfNatToString(magnitude);
    var digits := NatToString(magnitude);
    if i < 0 then
      assert ("-" + digits)[1..] == digits;
      "-" + digits
    else digits
  }

  /** `toLocaleString('en-US', { minimumIntegerDigits: 2, useGrouping: false })`
      of a non-negative integer: its digits, with a leading zero below 10. */
  function PadTwo(n: nat): (s: string)
    ensures |s| >= 2 && AllDigits(s) && NumeralValue(s) == n
    ensures n < 100 ==> |s| == 2
  {
    NumeralOfNatToString(n);
    var digits := NatToString(n);
    if n < 10 then
      var s := ['0', DigitChar(n)];
      assert s[..1] == ['0'] && s[..1][..0] == [];
      s
    else
      assert n < 100 ==> NatToString(n / 10) == [DigitChar(n / 10)];
      digits
  }

  /** JavaScript's `%`: the remainder of the division truncated toward zero,
      which takes the sign of the dividend. */
  function JsRemainder(a: int, b: int): (r: int)
    requires b > 0
    ensures -b < r < b
    ensures a >= 0 ==> r >= 0
    ensures a < 0 ==> r <= 0
    ensures a == b * (if a >= 0 then a / b else -((-a) / b)) + r
  {
    if a >= 0 then a % b else -((-a) % b)
  }

  /** `Math.floor(second % 60).toLocaleString(...)`: the remainder keeps the
      sign of `second` (a negative multiple of 60 gives `-0`, which prints
      as "-00"), so the part carries a minus sign exactly when `second` is
      negative, followed by two digits worth |second| mod 60. */
  function SecondsPart(second: int): (s: string)
    ensures |s| == if second < 0 then 3 else 2
    ensures (second < 0) <==> s[0] == '-'
    ensures var digits := if second < 0 then s[1..] else s;
      AllDigits(digits) && NumeralValue(digits) == (if second < 0 then -second else second) % 60
  {
    var r := JsRemainder(second, 60);
    var padded := PadTwo(if r < 0 then -r else r);
    if second < 0 then
      assert ("-" + padded)[1..] == padded;
      "-" + padded
    else padded
  }

  /** `_printTimer(second)`: `Math.floor(second / 60) + ':' + minS`.  The
      label starts with a minus sign exactly when the time is negative. */
  function PrintTimer(second: int): (text: string)
    ensures |text| >= 4 && ((second < 0) <==> text[0] == '-')
    ensures text[|text| - |SecondsPart(second)| - 1] == ':'
  {
    IntToString(second / 60) + ":" + SecondsPart(second)
  }

  /** Reads a label back: minutes, ':', exactly two second digits below 60. */
  function ParseTimerLabel(text: string): Option<nat> {
    if |text| < 4 then None
    else
      var minutes, colon, seconds := text[..|text| - 3], text[|text| - 3], text[|text| - 2..];
      if colon == ':' && AllDigits(minutes) && AllDigits(seconds) && NumeralValue(seconds) < 60
      then Some(NumeralValue(minutes) * 60 + NumeralValue(seconds))
      else None
  }

  /** Every non-negative countdown value is recovered from its label, so two
      different seconds-left values never show the same label. */
  lemma PrintTimerRoundTrip(second: nat)
    ensures ParseTimerLabel(PrintTimer(second)) == Some(second)
  {
    var minutes, seconds := IntToString(second / 60), SecondsPart(second);
    var text := PrintTimer(second);
    assert text == minutes + ":" + seconds;
    assert text[..|text| - 3] == minutes;
    assert text[|text| - 3] == ':';
    assert text[|text| - 2..] == seconds;
  }

  lemma PrintTimerInjective(a: nat, b: nat)
    requires PrintTimer(a) == PrintTimer(b)
    ensures a == b
  {
    PrintTimerRoundTrip(a);
    PrintTimerRoundTrip(b);
  }

  /** The labels the countdown starts from agree with the menu's timer names
      "5:00", "10:00" and "30:00". */
  lemma MenuLabels()
    ensures PrintTimer(5 * 60) == "5:00"
    ensures PrintTimer(10 * 60) == "10:00"
    ensures PrintTimer(30 * 60) == "30:00"
  {
    assert NatToString(10) == "10";
    assert NatToString(30) == "30";
  }

  /** One tick past zero, before the expiry fires, shows "-1:-01". */
  lemma OverrunLabel()
    ensures PrintTimer(-1) == "-1:-01"
  {
    assert -1 / 60 == -1;
    assert JsRemainder(-1, 60) == -1;
  }

  /** Sixty ticks past zero the remainder is `-0`, and the label shows it:
      "-1:-00", not "-1:00". */
  lemma NegativeZeroLabel()
    ensures PrintTimer(-60) == "-1:-00"
  {
    assert -60 / 60 == -1;
    assert JsRemainder(-60, 60) == 0;
  }
}
