/** Division facts used for packets and flash pages. */
module Arithmetic {
  lemma DivStep(a: nat, s: nat)
    requires 0 < s <= a
    ensures (a - s) / s == a / s - 1 && (a - s) % s == a % s
  {
    var q, r := a / s, a % s;
    assert a - s == s * (q - 1) + r by {
      assert a == s * q + r;
    }
    DivUnique(a - s, s, q - 1, r);
  }

  lemma DivUnique(a: int, s: nat, q: int, r: nat)
    requires r < s && a == s * q + r
    ensures a / s == q && a % s == r
  {
    var d := a / s - q;
    assert a == s * (a / s) + a % s;
    assert s * d == s * (a / s) - s * q;
    MulGap(s, d);
  }

  lemma MulGap(s: nat, d: int)
    requires s > 0
    ensures d == 0 || s * d >= s || s * d <= -(s as int)
  {
    if d >= 1 {
      assert s * d >= s;
    } else if d <= -1 {
      assert s * -d >= s;
    }
  }

  lemma MulMonotone(s: nat, a: int, b: int)
    requires a <= b
    ensures s * a <= s * b
  {
  }

  lemma EvenMultiple(s: nat, q: nat)
    requires s % 2 == 0
    ensures (s * q) % 2 == 0
  {
    var h := s / 2;
    assert s * q == 2 * (h * q);
  }
}
