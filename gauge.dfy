/** The arithmetic of the radial gauge `ChartRadialTexts`: the target read out of
    the caption, the percentage, the end angle of the arc and its colour. The two
    copies of the component compute these with identical expressions, so they are
    defined once here. Percentages and angles are exact reals. */
module Gauge {
  import opened Records
  import opened Decimal

  /** The target used when the label holds no digit. */
  const DefaultTarget: nat := 100
  /** The arc starts at this angle; a full goal sweeps 360 degrees from it. */
  const StartAngle: real := -270.0
  const Green: string := "#22c55e"
  const Red: string := "#ef4444"

  predicate NoDigits(s: string)
  {
    forall i :: 0 <= i < |s| ==> !IsDigit(s[i])
  }

  /** Where the leftmost match of `/(\d+)/` in `label` starts, searching from `k`. */
  function FirstDigitFrom(caption: string, k: nat): (r: Option<nat>)
    requires k <= |caption|
    ensures r.None? <==> forall i :: k <= i < |caption| ==> !IsDigit(caption[i])
    ensures r.Some? ==> k <= r.value < |caption| && IsDigit(caption[r.value])
    ensures r.Some? ==> forall i :: k <= i < r.value ==> !IsDigit(caption[i])
    decreases |caption| - k
  {
    if k == |caption| then None
    else if IsDigit(caption[k]) then Some(k)
    else FirstDigitFrom(caption, k + 1)
  }

  /** The capture group of `caption.match(/(\d+)/)`: the first maximal run of ASCII digits, if any. */
  function FirstDigitRun(caption: string): (r: Option<string>)
    ensures r.None? <==> NoDigits(caption)
    ensures r.Some? ==> r.value != [] && AllDigits(r.value)
    ensures r.Some? ==>
      exists i :: 0 <= i && i + |r.value| <= |caption| && NoDigits(caption[..i]) &&
        caption[i..i + |r.value|] == r.value &&
        (i + |r.value| == |caption| || !IsDigit(caption[i + |r.value|]))
  {
    match FirstDigitFrom(caption, 0)
    case None => None
    case Some(i) =>
      var run := LeadingDigits(caption[i..]);
      assert caption[i..i + |run|] == run;
      assert NoDigits(caption[..i]);
      Some(run)
  }

  /** `total`: the decimal value of the label's first digit run, or 100 when it has none. */
  function Target(caption: string): (t: nat)
    ensures NoDigits(caption) ==> t == DefaultTarget
  {
    match FirstDigitRun(caption)
    case None => DefaultTarget
    case Some(run) => ParseDigits(run)
  }

  /** A label made of digit-free text, a run of digits and text not starting with a digit has
      the value of that run as its target, leading zeros included ("de 007" gives 7). */
  lemma TargetOfDigitsInLabel(prefix: string, digits: string, suffix: string)
    requires NoDigits(prefix)
    requires digits != [] && AllDigits(digits)
    requires suffix == [] || !IsDigit(suffix[0])
    ensures Target(prefix + digits + suffix) == ParseDigits(digits)
  {
    var caption := prefix + digits + suffix;
    assert caption[|prefix|] == digits[0];
    var first := FirstDigitFrom(caption, 0);
    assert forall i :: 0 <= i < |prefix| ==> caption[i] == prefix[i];
    assert first == Some(|prefix|);
    assert caption[|prefix|..] == digits + suffix;
    LeadingDigitsOfRun(digits, suffix);
  }

  /** A label made of digit-free text, a number and text not starting with a digit has
      that number as its target ("de 100" gives 100, "de 3" gives 3). */
  lemma TargetOfNumberInLabel(prefix: string, n: nat, suffix: string)
    requires NoDigits(prefix)
    requires suffix == [] || !IsDigit(suffix[0])
    ensures Target(prefix + NatToString(n) + suffix) == n
  {
    TargetOfDigitsInLabel(prefix, NatToString(n), suffix);
    ParseNatToString(n);
  }

  /** `percentage`: the value as a share of the target in hundredths, guarded to 0 for a zero
      target; it lies within 0..100 while the value does not exceed a positive target. */
  function Percentage(value: int, target: nat): (p: real)
    ensures target == 0 ==> p == 0.0
    ensures target > 0 ==> p * target as real == 100.0 * value as real
    ensures target > 0 && 0 <= value <= target ==> 0.0 <= p <= 100.0
  {
    if target > 0 then
      var v, t := value as real, target as real;
      assert (v / t) * t == v;
      assert 0 <= value <= target ==> v / t <= 1.0;
      (v / t) * 100.0
    else 0.0
  }

  /** `endAngle`: the arc sweeps 360 * value / target degrees from -270, so nothing for value 0
      or a zero target, and the full circle up to 90 when the value equals the target. */
  function EndAngle(value: int, target: nat): (a: real)
    ensures target > 0 ==> (a - StartAngle) * target as real == 360.0 * value as real
    ensures target == 0 || value == 0 ==> a == StartAngle
    ensures target > 0 && value == target ==> a == 90.0
  {
    var p := Percentage(value, target);
    assert (p * 3.6) * target as real == 3.6 * (p * target as real);
    StartAngle + (p / 100.0) * 360.0
  }

  /** `reachedGoal`: for a positive target, the percentage has reached 100; a zero target is
      reached by any value that is not negative. */
  predicate ReachedGoal(value: int, target: nat)
    ensures target > 0 ==> (ReachedGoal(value, target) <==> Percentage(value, target) >= 100.0)
    ensures target == 0 ==> (ReachedGoal(value, target) <==> value >= 0)
  {
    if target > 0 then
      var p, t := Percentage(value, target), target as real;
      ScalePositive(p, 100.0, t);
      assert p * t == 100.0 * value as real;
      assert value >= target <==> 100.0 * value as real >= 100.0 * t;
      value >= target
    else value >= target
  }

  /** Multiplying both sides by a positive factor keeps an inequality. */
  lemma ScalePositive(a: real, b: real, t: real)
    requires t > 0.0
    ensures a * t >= b * t <==> a >= b
  {
    if a >= b {
      assert (a - b) * t >= 0.0;
    } else {
      assert (b - a) * t > 0.0;
    }
  }

  /** `barColor`: green exactly when the goal is reached, red exactly when it is not. */
  function BarColor(value: int, target: nat): (c: string)
    ensures c == Green <==> ReachedGoal(value, target)
    ensures c == Red <==> !ReachedGoal(value, target)
  {
    if ReachedGoal(value, target) then Green else Red
  }

  /** The end angle is -270 + 3.6 * percentage, and grows with the value. */
  lemma EndAngleOfPercentage(value: int, other: int, target: nat)
    ensures EndAngle(value, target) == -270.0 + 3.6 * Percentage(value, target)
    ensures value <= other ==> EndAngle(value, target) <= EndAngle(other, target)
  {
    if target > 0 && value <= other {
      var t := target as real;
      assert value as real / t <= other as real / t by {
        assert (other as real - value as real) / t >= 0.0;
      }
    }
  }

  /** For a positive target the bar turns green exactly when the arc completes its circle. */
  lemma GreenIffFullCircle(value: int, target: nat)
    requires target > 0
    ensures BarColor(value, target) == Green <==> EndAngle(value, target) >= 90.0
  {
    var t := target as real;
    var sweep := EndAngle(value, target) - StartAngle;
    assert sweep * t == 360.0 * value as real;
    ScalePositive(sweep, 360.0, t);
  }
}
