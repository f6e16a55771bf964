/** The drilling formulas of `src/utils/drilling_utils.py`: the friction factor Mu
    and the mechanical specific energy (MSE) of a bit. Quantities that Python would
    compute as a division by zero (an exception for floats, inf or NaN for numpy) are
    `None`. */
module Drilling {
  import opened Wrappers

  /** The value of `math.pi`; the proofs only use that it lies between 3 and 4. */
  const Pi: real := 3.141592653589793

  /** The configured bit diameter in inches, used by the optimisers. */
  const BitDiameter: real := 8.5

  /** `a / b`, named so that facts about it carry over between proofs. */
  function Quotient(a: real, b: real): (q: real)
    requires b != 0.0
    ensures q * b == a
  {
    a / b
  }

  /** The normal force term of Mu's denominator, `wob * bit_diameter / 36`. */
  function MuDenominator(wob: real, d: real): real {
    wob * d / 36.0
  }

  lemma MuDenominatorZero(wob: real, d: real)
    ensures MuDenominator(wob, d) == 0.0 <==> wob == 0.0 || d == 0.0
  {
    if wob != 0.0 && d != 0.0 {
      assert wob * d != 0.0;
    }
  }

  /** `compute_mu(wob, torque, bit_diameter)`: torque divided by `wob * d / 36`. */
  function ComputeMu(wob: real, torque: real, d: real): (r: Option<real>)
    ensures r.Some? <==> wob != 0.0 && d != 0.0
    ensures r.Some? ==> r.value * MuDenominator(wob, d) == torque
  {
    MuDenominatorZero(wob, d);
    if MuDenominator(wob, d) == 0.0 then None else Some(Quotient(torque, MuDenominator(wob, d)))
  }

  /** Doubling the torque doubles Mu, and no torque gives no friction: Mu is linear in torque. */
  lemma MuLinearInTorque(wob: real, torque: real, d: real, c: real)
    requires wob != 0.0 && d != 0.0
    ensures ComputeMu(wob, c * torque, d).value == c * ComputeMu(wob, torque, d).value
  {
    var den := MuDenominator(wob, d);
    assert c * torque / den == c * (torque / den);
  }

  /** `x ** n` for a natural exponent. */
  function Power(x: real, n: nat): real {
    if n == 0 then 1.0 else x * Power(x, n - 1)
  }

  /** A square is positive exactly when its base is non-zero. */
  lemma SquareSign(x: real)
    ensures x != 0.0 ==> Power(x, 2) > 0.0
    ensures x == 0.0 ==> Power(x, 2) == 0.0
  {
    assert Power(x, 1) == x;
    if x > 0.0 {
      assert Power(x, 1) > 0.0;
    } else if x < 0.0 {
      assert Power(x, 1) < 0.0;
    }
  }

  /** `bit_diameter ** 2 * rop * 3.2808`. */
  function MseDenominator(d: real, rop: real): real {
    Power(d, 2) * rop * 3.2808
  }

  lemma MseDenominatorSign(d: real, rop: real)
    ensures MseDenominator(d, rop) == 0.0 <==> d == 0.0 || rop == 0.0
    ensures d != 0.0 && rop > 0.0 ==> MseDenominator(d, rop) > 0.0
  {
    SquareSign(d);
    if d != 0.0 && rop != 0.0 {
      assert Power(d, 2) * rop != 0.0;
    }
  }

  /** `480 * torque * bit_rpm`. */
  function TorqueNumerator(torque: real, rpm: real): real {
    480.0 * torque * rpm
  }

  /** The thrust part of MSE, `wob / (d/2)**2 * pi`. */
  function WobTerm(wob: real, d: real): real
    requires d != 0.0
  {
    SquareSign(d / 2.0);
    Quotient(wob, Power(d / 2.0, 2)) * Pi
  }

  /** The rotary part of MSE, `480 * torque * rpm / (d**2 * rop * 3.2808)`. */
  function TorqueTerm(torque: real, rpm: real, rop: real, d: real): real
    requires d != 0.0 && rop != 0.0
  {
    MseDenominatorSign(d, rop);
    Quotient(TorqueNumerator(torque, rpm), MseDenominator(d, rop))
  }

  /** `compute_mse(wob, bit_rpm, torque, rop, bit_diameter)`: defined exactly when the
      bit diameter and the rate of penetration are non-zero. */
  function ComputeMse(wob: real, rpm: real, torque: real, rop: real, d: real): (r: Option<real>)
    ensures r.Some? <==> d != 0.0 && rop != 0.0
    ensures r.Some? ==> r.value == WobTerm(wob, d) + TorqueTerm(torque, rpm, rop, d)
  {
    SquareSign(d / 2.0);
    MseDenominatorSign(d, rop);
    if Power(d / 2.0, 2) == 0.0 then None
    else if MseDenominator(d, rop) == 0.0 then None
    else Some(WobTerm(wob, d) + TorqueTerm(torque, rpm, rop, d))
  }

  lemma QuotientDecreasing(c: real, x1: real, x2: real)
    requires c > 0.0 && 0.0 < x1 < x2
    ensures Quotient(c, x2) < Quotient(c, x1)
  {
    assert c / x2 * x1 < c / x2 * x2;
  }

  lemma QuotientMonotone(a1: real, a2: real, b: real)
    requires a1 <= a2 && b > 0.0
    ensures Quotient(a1, b) <= Quotient(a2, b)
  {
    assert (a2 - a1) / b >= 0.0;
    assert a2 / b - a1 / b == (a2 - a1) / b;
  }

  lemma QuotientOfZero(b: real)
    requires b != 0.0
    ensures Quotient(0.0, b) == 0.0
  {
  }

  /** With positive torque, speed and diameter, a faster penetration always lowers MSE. */
  lemma MseDecreasingInRop(wob: real, rpm: real, torque: real, d: real, rop1: real, rop2: real)
    requires torque > 0.0 && rpm > 0.0 && d > 0.0 && 0.0 < rop1 < rop2
    ensures ComputeMse(wob, rpm, torque, rop2, d).value < ComputeMse(wob, rpm, torque, rop1, d).value
  {
    assert TorqueNumerator(torque, rpm) > 0.0 by {
      assert torque * rpm > 0.0;
    }
    SquareSign(d);
    MseDenominatorSign(d, rop1);
    assert MseDenominator(d, rop1) < MseDenominator(d, rop2) by {
      assert Power(d, 2) * rop1 < Power(d, 2) * rop2;
    }
    QuotientDecreasing(TorqueNumerator(torque, rpm), MseDenominator(d, rop1), MseDenominator(d, rop2));
  }

  /** Without torque or without rotation, MSE does not depend on the rate of penetration. */
  lemma MseIndependentOfRop(wob: real, rpm: real, torque: real, d: real, rop1: real, rop2: real)
    requires torque == 0.0 || rpm == 0.0
    requires d != 0.0 && rop1 != 0.0 && rop2 != 0.0
    ensures ComputeMse(wob, rpm, torque, rop1, d) == ComputeMse(wob, rpm, torque, rop2, d)
  {
    assert TorqueNumerator(torque, rpm) == 0.0;
    MseDenominatorSign(d, rop1);
    MseDenominatorSign(d, rop2);
    QuotientOfZero(MseDenominator(d, rop1));
    QuotientOfZero(MseDenominator(d, rop2));
  }

  /** For non-negative inputs MSE is non-negative, and it grows with the weight on bit. */
  lemma MseNonNegativeMonotoneInWob(wob1: real, wob2: real, rpm: real, torque: real, rop: real, d: real)
    requires 0.0 <= wob1 <= wob2 && rpm >= 0.0 && torque >= 0.0 && rop > 0.0 && d > 0.0
    ensures 0.0 <= ComputeMse(wob1, rpm, torque, rop, d).value <= ComputeMse(wob2, rpm, torque, rop, d).value
  {
    SquareSign(d / 2.0);
    var h := Power(d / 2.0, 2);
    QuotientMonotone(0.0, wob1, h);
    QuotientMonotone(wob1, wob2, h);
    QuotientOfZero(h);
    assert 0.0 <= Quotient(wob1, h) * Pi <= Quotient(wob2, h) * Pi;
    assert 0.0 <= TorqueNumerator(torque, rpm) by {
      assert torque * rpm >= 0.0;
    }
    MseDenominatorSign(d, rop);
    QuotientMonotone(0.0, TorqueNumerator(torque, rpm), MseDenominator(d, rop));
    QuotientOfZero(MseDenominator(d, rop));
  }
}
