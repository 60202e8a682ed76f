/** The q/pt shift transform of the task (getShiftedPt).

    A shift is applied to the signed inverse transverse momentum q/pt, the
    variable in which a tracking-calibration bias is linear; the shifted
    transverse momentum is the reciprocal of the shifted inverse. Everything
    is stated over exact reals: the IEEE infinities the original produces at
    the singular point are excluded by `Shiftable`. */
module ShiftTransform {

  /** The transform is defined: pt is non-zero (so 1/pt exists) and the
      shifted inverse momentum is non-zero (so its reciprocal exists). */
  predicate Shiftable(pt: real, shift: real, charge: real) {
    pt != 0.0 && shift * charge + 1.0 / pt != 0.0
  }

  /** pt' = 1 / (shift * charge + 1 / pt): the inverse of the result is the
      original inverse momentum moved by shift * charge. */
  function ShiftedPt(pt: real, shift: real, charge: real): (r: real)
    requires Shiftable(pt, shift, charge)
    ensures r != 0.0
    ensures 1.0 / r == 1.0 / pt + shift * charge
  {
    1.0 / (shift * charge + 1.0 / pt)
  }

  /** With no shift the transform is the identity, whatever the charge. */
  lemma ZeroShiftIsIdentity(pt: real, charge: real)
    requires pt != 0.0
    ensures Shiftable(pt, 0.0, charge)
    ensures ShiftedPt(pt, 0.0, charge) == pt
  {
  }

  /** Flipping the sign of both the shift and the charge changes nothing. */
  lemma SignSymmetry(pt: real, shift: real, charge: real)
    requires Shiftable(pt, shift, charge)
    ensures Shiftable(pt, -shift, -charge)
    ensures ShiftedPt(pt, -shift, -charge) == ShiftedPt(pt, shift, charge)
  {
    assert (-shift) * (-charge) == shift * charge;
  }

  /** Shifting by -shift with the same charge undoes a shift by shift; the
      second transform is always defined once the first one is. */
  lemma ShiftThenUnshift(pt: real, shift: real, charge: real)
    requires Shiftable(pt, shift, charge)
    ensures Shiftable(ShiftedPt(pt, shift, charge), -shift, charge)
    ensures ShiftedPt(ShiftedPt(pt, shift, charge), -shift, charge) == pt
  {
    var p := ShiftedPt(pt, shift, charge);
    assert 1.0 / p + (-shift) * charge == 1.0 / pt;
  }

  /** Two successive shifts with the same charge are one shift by their sum. */
  lemma ShiftsCompose(pt: real, a: real, b: real, charge: real)
    requires Shiftable(pt, a, charge)
    requires Shiftable(ShiftedPt(pt, a, charge), b, charge)
    ensures Shiftable(pt, a + b, charge)
    ensures ShiftedPt(ShiftedPt(pt, a, charge), b, charge) == ShiftedPt(pt, a + b, charge)
  {
    var p := ShiftedPt(pt, a, charge);
    assert b * charge + 1.0 / p == (a + b) * charge + 1.0 / pt;
  }

  /** For a positive momentum, a shift in the direction of the charge
      (shift * charge > 0) lowers pt and keeps it positive; a shift against
      the charge raises pt while the shifted inverse stays positive, and
      turns the result negative once the shifted inverse crosses zero. */
  lemma ShiftDirection(pt: real, shift: real, charge: real)
    requires pt > 0.0
    requires Shiftable(pt, shift, charge)
    ensures shift * charge > 0.0 ==> 0.0 < ShiftedPt(pt, shift, charge) < pt
    ensures shift * charge < 0.0 && shift * charge + 1.0 / pt > 0.0 ==> ShiftedPt(pt, shift, charge) > pt
    ensures shift * charge + 1.0 / pt < 0.0 ==> ShiftedPt(pt, shift, charge) < 0.0
  {
    var d := shift * charge + 1.0 / pt;
    var r := ShiftedPt(pt, shift, charge);
    var inv := 1.0 / pt;
    assert r * d == 1.0;
    assert pt * inv == 1.0;
    // q is r / pt, so r is pt * q
    var q := r * inv;
    assert pt * q == r by {
      assert pt * (r * inv) == r * (pt * inv);
    }
    if d > 0.0 {
      assert r > 0.0;
      if shift * charge > 0.0 {
        assert d - inv > 0.0;
        assert r * d - q == r * (d - inv);
        assert r * (d - inv) > 0.0;
        assert q < 1.0;
        assert pt - pt * q == pt * (1.0 - q);
        assert pt * (1.0 - q) > 0.0;
        assert q > 0.0;
      } else if shift * charge < 0.0 {
        assert inv - d > 0.0;
        assert q - r * d == r * (inv - d);
        assert r * (inv - d) > 0.0;
        assert q > 1.0;
        assert pt * q - pt == pt * (q - 1.0);
        assert pt * (q - 1.0) > 0.0;
      }
    }
  }
}
