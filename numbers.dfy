/**
 * Numeric conventions of the CRM's JavaScript: `Math.round`, percentages,
 * and the `x || d` fallbacks applied to parsed numbers.
 */
module Numbers {
  import opened Wrappers
  import Text

  /** `Math.round(x)`: the nearest integer, halves rounded up. */
  function Round(x: real): (r: int)
    ensures r as real - 0.5 <= x < r as real + 0.5
  {
    (x + 0.5).Floor
  }

  /** `r` is `Math.round(x)`: no more than half below `x` and less than half above it. */
  predicate RoundsTo(r: int, x: real)
  {
    r as real - 0.5 <= x < r as real + 0.5
  }

  lemma RoundMonotone(x: real, y: real)
    requires x <= y
    ensures Round(x) <= Round(y)
  {
  }

  /** A rounded value of a quantity between 0 and 100 stays between 0 and 100. */
  lemma RoundPercentBounds(x: real)
    requires 0.0 <= x <= 100.0
    ensures 0 <= Round(x) <= 100
  {
    RoundMonotone(0.0, x);
    RoundMonotone(x, 100.0);
  }

  lemma RoundInt(n: int)
    ensures Round(n as real) == n
  {
  }

  lemma SelfRatio(w: real)
    requires w != 0.0
    ensures w / w == 1.0
  {
  }

  lemma RatioBounds(part: real, whole: real)
    requires whole != 0.0
    ensures 0.0 <= part <= whole ==> 0 <= Round(part / whole * 100.0) <= 100
    ensures part == whole ==> Round(part / whole * 100.0) == 100
  {
    if 0.0 <= part <= whole {
      assert part / whole <= 1.0 by {
        assert part / whole * whole == part;
      }
      RoundPercentBounds(part / whole * 100.0);
    }
    if part == whole {
      SelfRatio(whole);
      RoundInt(100);
    }
  }

  /** A quotient by a positive number is at most 1 exactly when the dividend is at most the divisor. */
  lemma RatioAgainstOne(a: real, b: real)
    requires b > 0.0
    ensures a <= b <==> a / b <= 1.0
    ensures a >= b <==> a / b >= 1.0
  {
    var q := a / b;
    assert q * b == a;
    if q < 1.0 { assert q * b < 1.0 * b; }
    if q > 1.0 { assert q * b > 1.0 * b; }
  }

  /** The rounded mean of a total of at most 100 per item stays between 0 and 100. */
  lemma MeanPercentBounds(total: int, count: int)
    requires count > 0 && 0 <= total <= 100 * count
    ensures 0 <= Round(total as real / count as real) <= 100
  {
    var x := total as real / count as real;
    assert x * count as real == total as real;
    assert x <= 100.0 by {
      if x > 100.0 {
        assert x * count as real > 100.0 * count as real;
      }
    }
    RoundPercentBounds(x);
  }

  /** `Math.round(part / whole * 100)`. */
  function Percent(part: real, whole: real): (r: int)
    requires whole != 0.0
    ensures RoundsTo(r, part / whole * 100.0)
    ensures 0.0 <= part <= whole ==> 0 <= r <= 100
    ensures part == whole ==> r == 100
  {
    RatioBounds(part, whole);
    Round(part / whole * 100.0)
  }

  /** A share of at least one part in at most 200 rounds to at least one percent. */
  lemma PercentAtLeastOne(part: real, whole: real)
    requires 1.0 <= part && 0.0 < whole <= 200.0
    ensures Percent(part, whole) >= 1
  {
    var x := part / whole * 100.0;
    assert x * whole == part * 100.0;
    assert (x - 0.5) * whole >= 0.0;
    RoundMonotone(0.5, x);
  }

  /** `x || 0` applied to a parsed number, where `None` stands for `NaN`. */
  function OrZero(x: Option<real>): (r: real)
    ensures x.None? ==> r == 0.0
    ensures x.Some? ==> r == x.value
  {
    if x.Some? then x.value else 0.0
  }

  /** `x || d`: `d` replaces `NaN`, `null` and also the number zero. */
  function OrElse(x: Option<real>, d: real): (r: real)
    ensures x.Some? && x.value != 0.0 ==> r == x.value
    ensures x.None? || x.value == 0.0 ==> r == d
  {
    if x.Some? && x.value != 0.0 then x.value else d
  }

  /**
   * The text of a numeric form field: either what the user typed, or the
   * `String(x)` of a stored number the form was prefilled with. JavaScript
   * reads the latter back exactly (`parseFloat(String(x)) == x`), which is
   * what `ParseField` states for it.
   */
  datatype Field = Typed(text: string) | Shown(number: real)

  /** `parseFloat` of the field; `None` is `NaN`. */
  function ParseField(f: Field): (r: Option<real>)
    ensures f.Shown? ==> r == Some(f.number)
    ensures f.Typed? ==> r == Text.ParseFloat(f.text)
  {
    match f
    case Typed(s) => Text.ParseFloat(s)
    case Shown(x) => Some(x)
  }

  /** `x?.toString() || ''`: an empty field for a missing number, else the number's text. */
  function ShowOrEmpty(x: Option<real>): (f: Field)
    ensures ParseField(f) == (if x.Some? then x else None)
  {
    match x
    case None => Typed("")
    case Some(v) => Shown(v)
  }
}
