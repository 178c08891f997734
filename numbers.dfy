/** Powers of two, shared by the literal decoder, the fixed-point operator
    rules and the SPI model. */
module Numbers {

  function Pow2(n: nat): (p: nat)
    ensures p >= 1
    ensures n >= 1 ==> p >= 2
  {
    if n == 0 then 1 else 2 * Pow2(n - 1)
  }

  lemma {:induction false} Pow2Add(a: nat, b: nat)
    ensures Pow2(a + b) == Pow2(a) * Pow2(b)
    decreases a
  {
    if a > 0 {
      Pow2Add(a - 1, b);
      var p, q := Pow2(a - 1), Pow2(b);
      calc {
        Pow2(a) * Pow2(b);
        (2 * p) * q;
        { DoubleFactor(p, q); }
        2 * (p * q);
        2 * Pow2((a - 1) + b);
        Pow2(a + b);
      }
    }
  }

  lemma DoubleFactor(p: int, q: int)
    ensures (2 * p) * q == 2 * (p * q)
  {
  }

  lemma {:induction false} Pow2Monotone(a: nat, b: nat)
    requires a <= b
    ensures Pow2(a) <= Pow2(b)
    decreases b - a
  {
    if a < b {
      Pow2Monotone(a + 1, b);
    }
  }
}
