/** The per-question countdown helpers of `src/pages/Play.jsx`: the
    seconds readout, the remaining time against an absolute deadline, and
    the delay that re-aligns the next tick with a whole second. */
module Timer {
  import opened Common

  const PerQuestionMs: nat := 20000

  function Max(a: int, b: int): int {
    if a >= b then a else b
  }

  /** JavaScript's `%`: the quotient truncates toward zero, so the remainder
      takes the sign of the dividend (unlike Dafny's Euclidean `%`). */
  function JsRem(a: int, b: int): (r: int)
    requires b > 0
    ensures a >= 0 ==> 0 <= r < b
    ensures a < 0 ==> -b < r <= 0
  {
    if a >= 0 then a % b else -((-a) % b)
  }

  /** `str.padStart(2, '0')`. */
  function PadStart2(s: string): string {
    if |s| < 2 then seq(2 - |s|, _ => '0') + s else s
  }

  /** `formatMs(ms)`: whole seconds, never below zero, modulo 60, two digits,
      then "s". `Math.floor(ms / 1000)` is Dafny's `/` for a positive divisor. */
  function FormatMs(ms: int): string {
    var sec := Max(0, ms / 1000);
    PadStart2(NatToString(sec % 60)) + "s"
  }

  /** The readout is two digits and "s", and the digits read back as the
      whole seconds left (modulo a minute; zero once time is up). */
  lemma FormatMsReadsBack(ms: int)
    ensures var r := FormatMs(ms);
      |r| == 3 && r[2] == 's' && AllDigits(r[..2])
      && DigitsValue(r[..2]) == Max(0, ms / 1000) % 60
  {
    var x := Max(0, ms / 1000) % 60;
    var s := NatToString(x);
    DigitsOfNatToString(x);
    if x < 10 {
      assert PadStart2(s) == ['0'] + s;
      assert DigitsValue(['0'] + s) == DigitsValue(['0']) * 10 + DigitValue(s[0]);
      DigitRoundTrip(0);
    } else {
      assert NatToString(x) == NatToString(x / 10) + [DigitChar(x % 10)];
      assert |s| == 2;
    }
    assert FormatMs(ms)[..2] == PadStart2(s);
  }

  /** A fresh question reads "20s". */
  lemma FullTimeReadout()
    ensures FormatMs(PerQuestionMs) == "20s"
  {
    assert Max(0, PerQuestionMs / 1000) % 60 == 20;
    assert NatToString(2) == "2";
    assert NatToString(20) == NatToString(2) + [DigitChar(0)];
    assert PadStart2("20") == "20";
  }

  /** `Math.max(0, deadline - now)`. */
  function Remaining(deadline: int, now: int): (r: int)
    ensures r >= 0
    ensures r == 0 <==> now >= deadline
    ensures r > 0 ==> now + r == deadline
  {
    Max(0, deadline - now)
  }

  /** `1000 - (now % 1000)`: the time to the next whole second. */
  function NextDelay(now: int): int {
    1000 - JsRem(now, 1000)
  }

  /** The next tick lands exactly on a whole second; for a non-negative
      clock the delay lies in [1, 1000]. */
  lemma NextDelayAligns(now: int)
    ensures (now + NextDelay(now)) % 1000 == 0
    ensures now >= 0 ==> 1 <= NextDelay(now) <= 1000
    ensures now < 0 ==> 1000 <= NextDelay(now) < 2000
  {
    if now >= 0 {
      var q := now / 1000;
      assert now == 1000 * q + now % 1000;
      assert now + NextDelay(now) == 1000 * (q + 1);
      assert (1000 * (q + 1)) % 1000 == 0;
    } else {
      var q := (-now) / 1000;
      assert -now == 1000 * q + (-now) % 1000;
      assert now + NextDelay(now) == 1000 * (1 - q);
      assert (1000 * (1 - q)) % 1000 == 0;
    }
  }

  /** `!deadline` on `endAtRef.current`: null and 0 are both falsy. */
  predicate DeadlineSet(endAt: Option<int>) {
    endAt.Some? && endAt.value != 0
  }
}
