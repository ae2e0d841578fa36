/** Difficulty retargeting: the exact arithmetic of `Blockchain::GetNextWorkRequired`. */
module Retarget {
  import opened Arithmetic
  import opened Base
  import opened Ledger

  function Pow2(n: nat): (p: nat)
    ensures p > 0
  {
    if n == 0 then 1 else 2 * Pow2(n - 1)
  }

  /** `BN_num_bits`. */
  function NumBits(x: nat): nat {
    if x == 0 then 0 else 1 + NumBits(x / 2)
  }

  function ClampSpan(actual: int): int {
    var raised := if actual < TARGET_TIMESPAN / 4 then TARGET_TIMESPAN / 4 else actual;
    if raised > TARGET_TIMESPAN * 4 then TARGET_TIMESPAN * 4 else raised
  }

  function ClampBits(bits: int): Int32 {
    var lowered := if MAX_BITS < bits then MAX_BITS else bits;
    if MIN_BITS > lowered then MIN_BITS else lowered
  }

  /** newTarget = oldTarget × timespan / expected, converted back to a number of leading zero bits. */
  function Retarget(oldBits: Int32, actual: int): Int32
    requires MIN_BITS <= oldBits <= MAX_BITS
  {
    var newTarget := Pow2(256 - oldBits) * ClampSpan(actual) / TARGET_TIMESPAN;
    ClampBits(256 - NumBits(newTarget))
  }

  /** How many bits a clamped timespan adds or takes away. */
  function Shift(span: int): int {
    if span < TARGET_TIMESPAN / 2 then 1
    else if span < TARGET_TIMESPAN then 0
    else if span < TARGET_TIMESPAN * 2 then -1
    else if span < TARGET_TIMESPAN * 4 then -2
    else -3
  }

  lemma {:induction false} NumBitsIs(x: nat, n: nat)
    requires x < Pow2(n) && (n > 0 ==> Pow2(n - 1) <= x)
    ensures NumBits(x) == n
    decreases n
  {
    if n > 0 {
      assert x > 0;
      NumBitsIs(x / 2, n - 1);
    }
  }

  /** A timespan of at least lo/4 of the expected one scales `p` to at least `low`, when low is at most lo/4 of p. */
  lemma {:induction false} ScaledAtLeast(p: nat, span: nat, lo: nat, low: nat)
    requires lo * TARGET_TIMESPAN <= 4 * span && 4 * low <= p * lo
    ensures p * span / TARGET_TIMESPAN >= low
  {
    MulOrder(p, lo * TARGET_TIMESPAN, 4 * span);
    assert p * (lo * TARGET_TIMESPAN) == (p * lo) * TARGET_TIMESPAN;
    assert p * (4 * span) == 4 * (p * span);
  }

  lemma {:induction false} ScaledBelow(p: nat, span: nat, hi: nat, high: nat)
    requires p > 0 && 4 * span < hi * TARGET_TIMESPAN && p * hi <= 4 * high
    ensures p * span / TARGET_TIMESPAN < high
  {
    MulOrder(p, 4 * span + 1, hi * TARGET_TIMESPAN);
    Regroup(p, span, hi);
    QuotientBelow(p * span, high);
  }

  lemma {:induction false} Regroup(p: nat, span: nat, hi: nat)
    ensures p * (hi * TARGET_TIMESPAN) == (p * hi) * TARGET_TIMESPAN
    ensures p * (4 * span + 1) == 4 * (p * span) + p
  {
  }

  lemma {:induction false} QuotientBelow(x: nat, high: nat)
    requires x < high * TARGET_TIMESPAN
    ensures x / TARGET_TIMESPAN < high
  {
  }

  /** The bit length of the new target, from the length of the old one and the clamped timespan. */
  lemma {:induction false} TargetBits(e: nat, span: int)
    requires e >= 1 && TARGET_TIMESPAN / 4 <= span <= TARGET_TIMESPAN * 4
    ensures NumBits(Pow2(e) * span / TARGET_TIMESPAN) == e - Shift(span)
  {
    var p := Pow2(e);
    assert p == 2 * Pow2(e - 1) && Pow2(e + 1) == 2 * p &&
      Pow2(e + 2) == 2 * Pow2(e + 1) && Pow2(e + 3) == 2 * Pow2(e + 2);
    if span < TARGET_TIMESPAN / 2 {
      ScaledBelow(p, span, 2, Pow2(e - 1));
      if e >= 2 {
        assert Pow2(e - 1) == 2 * Pow2(e - 2);
        ScaledAtLeast(p, span, 1, Pow2(e - 2));
      }
    } else if span < TARGET_TIMESPAN {
      ScaledBelow(p, span, 4, p);
      ScaledAtLeast(p, span, 2, Pow2(e - 1));
    } else if span < TARGET_TIMESPAN * 2 {
      ScaledBelow(p, span, 8, Pow2(e + 1));
      ScaledAtLeast(p, span, 4, p);
    } else if span < TARGET_TIMESPAN * 4 {
      ScaledBelow(p, span, 16, Pow2(e + 2));
      ScaledAtLeast(p, span, 8, Pow2(e + 1));
    } else {
      ScaledBelow(p, span, 32, Pow2(e + 3));
      ScaledAtLeast(p, span, 16, Pow2(e + 2));
    }
    NumBitsIs(p * span / TARGET_TIMESPAN, e - Shift(span));
  }

  /** The new difficulty is the old one moved by at most +1 and at least -3, then clamped to [1, 255]. */
  lemma {:induction false} RetargetMoves(oldBits: Int32, actual: int)
    requires MIN_BITS <= oldBits <= MAX_BITS
    ensures Retarget(oldBits, actual) == ClampBits(oldBits + Shift(ClampSpan(actual)))
    ensures MIN_BITS <= Retarget(oldBits, actual) <= MAX_BITS
  {
    TargetBits(256 - oldBits, ClampSpan(actual));
  }

  /** A longer timespan never gives a harder target. */
  lemma {:induction false} RetargetAntitone(oldBits: Int32, a: int, b: int)
    requires MIN_BITS <= oldBits <= MAX_BITS && a <= b
    ensures Retarget(oldBits, a) >= Retarget(oldBits, b)
  {
    RetargetMoves(oldBits, a);
    RetargetMoves(oldBits, b);
  }

  /** The new difficulty by the seconds a period took, one week, two, four and eight being where it changes. */
  lemma {:induction false} RetargetTable(oldBits: Int32, actual: int)
    requires 1 <= oldBits <= 255
    ensures Retarget(oldBits, actual) ==
      if actual < 604_800 then (if oldBits == 255 then 255 else oldBits + 1)
      else if actual < 1_209_600 then oldBits
      else
        var eased := if actual < 2_419_200 then 1 else if actual < 4_838_400 then 2 else 3;
        if oldBits <= eased then 1 else oldBits - eased
  {
    hide Retarget;
    RetargetMoves(oldBits, actual);
  }

  /** A period of exactly the expected length eases the difficulty by one bit; one second less keeps it. */
  lemma {:induction false} OnTimePeriod(oldBits: Int32)
    requires 1 < oldBits <= 255
    ensures Retarget(oldBits, 1_209_600) == oldBits - 1
    ensures Retarget(oldBits, 1_209_599) == oldBits
  {
    RetargetMoves(oldBits, 1_209_600);
    RetargetMoves(oldBits, 1_209_599);
  }
}
