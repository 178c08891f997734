/** The final consistency check of a computed type against a declared one. */
module Overflow {
  import opened FixedPoint
  import opened Issues

  /** A signedness difference the check tolerates: one extra bit on the
      signed side, exactly the bit a sign conversion needs. */
  predicate SignWidening(computed: Ty, declared: Ty) {
    (computed.signed && !declared.signed && computed.total == declared.total + 1)
    || (!computed.signed && declared.signed && declared.total == computed.total + 1)
  }

  /** `check_overflow`: a result may be wider than declared (Verilog
      truncates) unless more than twice as wide; fracs must agree; signs must
      agree unless the difference is a one-bit widening. Issues come in that
      order. */
  function CheckOverflow(computed: Ty, declared: Ty): (issues: seq<Issue>)
    ensures WidthTooLarge(computed.total, declared.total) in issues <==> computed.total > 2 * declared.total
    ensures FracDiffers(computed.frac, declared.frac) in issues <==> computed.frac != declared.frac
    ensures SignednessMismatch(computed.signed, declared.signed) in issues
            <==> computed.signed != declared.signed && !SignWidening(computed, declared)
    ensures |issues| <= 3
    ensures forall i :: 0 <= i < |issues| ==>
              issues[i] in [WidthTooLarge(computed.total, declared.total), FracDiffers(computed.frac, declared.frac),
                            SignednessMismatch(computed.signed, declared.signed)]
  {
    (if computed.total > declared.total * 2 then [WidthTooLarge(computed.total, declared.total)] else [])
    + (if computed.frac != declared.frac then [FracDiffers(computed.frac, declared.frac)] else [])
    + (if computed.signed != declared.signed && !SignWidening(computed, declared)
       then [SignednessMismatch(computed.signed, declared.signed)] else [])
  }

  /** The check passes exactly when the width is at most twice the declared
      width, the fracs agree and the signs agree up to a one-bit widening. */
  lemma CheckPassesIff(computed: Ty, declared: Ty)
    ensures CheckOverflow(computed, declared) == [] <==>
      computed.total <= 2 * declared.total && computed.frac == declared.frac
      && (computed.signed == declared.signed || SignWidening(computed, declared))
  {
    var issues := CheckOverflow(computed, declared);
    if computed.total > 2 * declared.total {
      assert WidthTooLarge(computed.total, declared.total) in issues;
    }
    if computed.frac != declared.frac {
      assert FracDiffers(computed.frac, declared.frac) in issues;
    }
    if computed.signed != declared.signed && !SignWidening(computed, declared) {
      assert SignednessMismatch(computed.signed, declared.signed) in issues;
    }
  }

  /** A type checked against itself passes, unless its width is negative. */
  lemma SelfCheck(t: Ty)
    ensures CheckOverflow(t, t) == [] <==> t.total >= 0
  {
    CheckPassesIff(t, t);
  }

  /** Truncation is allowed: any result of up to twice the declared width
      with the declared frac and sign passes. */
  lemma WiderResultPasses(declared: Ty, extra: int)
    requires 0 <= extra <= declared.total
    ensures CheckOverflow(Ty(declared.signed, declared.total + extra, declared.frac), declared) == []
  {
    CheckPassesIff(Ty(declared.signed, declared.total + extra, declared.frac), declared);
  }

  /** The widening tolerance only goes one way per side: an unsigned result
      one bit WIDER than a signed declaration is a mismatch. */
  lemma WideningIsDirectional(w: int, f: int)
    requires w >= 1
    ensures CheckOverflow(Ty(true, w + 1, f), Ty(false, w, f)) == []
    ensures CheckOverflow(Ty(false, w + 1, f), Ty(true, w, f)) == [SignednessMismatch(false, true)]
  {
    CheckPassesIff(Ty(true, w + 1, f), Ty(false, w, f));
  }
}
