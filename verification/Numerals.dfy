/** Positional numerals: what the big-number library converts from and to. */
module Numerals {
  import opened Arithmetic
  import opened Base

  type Digits = seq<nat>

  function Number(base: nat, ds: Digits): nat {
    if ds == [] then 0 else Number(base, ds[..|ds| - 1]) * base + ds[|ds| - 1]
  }

  /** The digits of `x`, most significant first and without leading zeros; none for zero. */
  function Numeral(base: nat, x: nat): (ds: Digits)
    requires base > 1
    ensures forall i :: 0 <= i < |ds| ==> ds[i] < base
    decreases x
  {
    if x == 0 then []
    else
      DivSmaller(x, base);
      Numeral(base, x / base) + [x % base]
  }

  lemma {:induction false} NumberSnoc(base: nat, ds: Digits, d: nat)
    ensures Number(base, ds + [d]) == Number(base, ds) * base + d
  {
    assert (ds + [d])[..|ds|] == ds;
  }

  predicate Proper(base: nat, ds: Digits) {
    (forall i :: 0 <= i < |ds| ==> ds[i] < base) && (ds != [] ==> ds[0] != 0)
  }

  lemma {:induction false} NumberOfNumeral(base: nat, x: nat)
    requires base > 1
    ensures Number(base, Numeral(base, x)) == x
    ensures Proper(base, Numeral(base, x))
    decreases x
  {
    if x != 0 {
      DivSmaller(x, base);
      DivMod(x, base);
      var q, r := x / base, x % base;
      NumberOfNumeral(base, q);
      var ds := Numeral(base, x);
      assert ds == Numeral(base, q) + [r] && ds[..|ds| - 1] == Numeral(base, q);
    }
  }

  lemma {:induction false} NumeralOfNumber(base: nat, ds: Digits)
    requires base > 1 && Proper(base, ds)
    ensures Numeral(base, Number(base, ds)) == ds
    ensures ds != [] ==> Number(base, ds) != 0
  {
    if ds != [] {
      var init, last := ds[..|ds| - 1], ds[|ds| - 1];
      NumeralOfNumber(base, init);
      DivModUnique(Number(base, ds), base, Number(base, init), last);
      assert ds == init + [last];
      if init != [] {
        MulOrder(base, 1, Number(base, init));
      }
    }
  }

  lemma {:induction false} LeadingZeros(base: nat, zeros: Digits, ds: Digits)
    requires forall i :: 0 <= i < |zeros| ==> zeros[i] == 0
    ensures Number(base, zeros + ds) == Number(base, ds)
  {
    if ds != [] {
      LeadingZeros(base, zeros, ds[..|ds| - 1]);
      assert (zeros + ds)[..|zeros + ds| - 1] == zeros + ds[..|ds| - 1];
    } else if zeros != [] {
      LeadingZeros(base, zeros[..|zeros| - 1], []);
      assert zeros[..|zeros| - 1] + [] == (zeros + ds)[..|zeros + ds| - 1];
    }
  }

  /** `BN_bin2bn`. */
  method BigEndian(b: Bytes) returns (x: nat)
    ensures x == Number(256, b)
  {
    x := 0;
    for i := 0 to |b|
      invariant x == Number(256, b[..i])
    {
      assert b[..i + 1][..i] == b[..i];
      x := x * 256 + b[i];
    }
    assert b[..|b|] == b;
  }
}
