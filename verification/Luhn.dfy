/** The checksum of security/sanitizer.py (ISO/IEC 7812-1, Annex B). */
module Luhn {
  type DigitValue = d: nat | d < 10

  /** What one digit adds to the total. */
  function Weight(d: DigitValue, doubled: bool): nat {
    if !doubled then d else if 2 * d > 9 then 2 * d - 9 else 2 * d
  }

  /** Whether the digit at index i of a number of n digits is doubled: every second one from the right. */
  predicate Doubled(n: nat, i: nat)
    requires i < n
  {
    (n - 1 - i) % 2 == 1
  }

  function Sum(ds: seq<DigitValue>): nat {
    if ds == [] then 0 else Weight(ds[0], Doubled(|ds|, 0)) + Sum(ds[1..])
  }

  predicate Valid(ds: seq<DigitValue>) {
    Sum(ds) % 10 == 0
  }

  method LuhnValid(digits: seq<DigitValue>) returns (ok: bool)
    ensures ok == Valid(digits)
  {
    var total := 0;
    for i := 0 to |digits|
      invariant total == Sum(digits[|digits| - i..])
    {
      var n: nat := digits[|digits| - 1 - i];
      if i % 2 == 1 {
        n := n * 2;
        if n > 9 {
          n := n - 9;
        }
      }
      total := total + n;
      assert digits[|digits| - (i + 1)..][1..] == digits[|digits| - i..];
    }
    assert digits[0..] == digits;
    ok := total % 10 == 0;
  }

  /** Overwriting one digit moves the sum by the difference of the two weights. */
  lemma {:induction false} SumAfterUpdate(ds: seq<DigitValue>, i: nat, d: DigitValue)
    requires i < |ds|
    ensures Sum(ds[i := d]) - Sum(ds) == Weight(d, Doubled(|ds|, i)) - Weight(ds[i], Doubled(|ds|, i))
  {
    if i == 0 {
      assert ds[0 := d][1..] == ds[1..];
    } else {
      assert ds[i := d][1..] == ds[1..][i - 1 := d];
      SumAfterUpdate(ds[1..], i - 1, d);
    }
  }

  /** Every single-digit error is caught. */
  lemma SingleDigitErrorDetected(ds: seq<DigitValue>, i: nat, d: DigitValue)
    requires Valid(ds) && i < |ds| && d != ds[i]
    ensures !Valid(ds[i := d])
  {
    hide Sum, Weight;
    SumAfterUpdate(ds, i, d);
    WeightsDiffer(ds[i], d, Doubled(|ds|, i));
    assert Sum(ds[i := d]) == Sum(ds) + (Weight(d, Doubled(|ds|, i)) - Weight(ds[i], Doubled(|ds|, i)));
  }

  lemma WeightsDiffer(a: DigitValue, b: DigitValue, doubled: bool)
    requires a != b
    ensures 0 < Weight(a, doubled) - Weight(b, doubled) < 10 || 0 < Weight(b, doubled) - Weight(a, doubled) < 10
  {
  }

  function Swapped(ds: seq<DigitValue>, i: nat): seq<DigitValue>
    requires i + 1 < |ds|
  {
    ds[i := ds[i + 1]][i + 1 := ds[i]]
  }

  /** A swap of neighbours passes exactly when it changes nothing or exchanges a 0 and a 9. */
  lemma AdjacentSwapDetected(ds: seq<DigitValue>, i: nat)
    requires Valid(ds) && i + 1 < |ds|
    ensures Valid(Swapped(ds, i)) <==> ds[i] == ds[i + 1] || {ds[i], ds[i + 1]} == {0, 9}
  {
    hide Sum, Weight;
    var a, b, doubled := ds[i], ds[i + 1], Doubled(|ds|, i);
    SumAfterUpdate(ds, i, b);
    SumAfterUpdate(ds[i := b], i + 1, a);
    SwapWeights(a, b, doubled);
    assert Doubled(|ds|, i + 1) == !doubled;
    var delta := Weight(b, doubled) - Weight(a, doubled) + Weight(a, !doubled) - Weight(b, !doubled);
    assert Sum(Swapped(ds, i)) == Sum(ds) + delta;
  }

  lemma ZeroAndNine(a: DigitValue, b: DigitValue)
    ensures {a, b} == {0, 9} <==> (a == 0 && b == 9) || (a == 9 && b == 0)
  {
    assert {a, b} == {0, 9} ==> a in {0, 9} && b in {0, 9} && 0 in {a, b} && 9 in {a, b};
  }

  lemma SwapDelta(a: DigitValue, b: DigitValue, doubled: bool)
    ensures (Weight(b, doubled) - Weight(a, doubled) + Weight(a, !doubled) - Weight(b, !doubled)) % 10 == 0
            <==> a == b || (a == 0 && b == 9) || (a == 9 && b == 0)
  {
  }

  lemma SwapWeights(a: DigitValue, b: DigitValue, doubled: bool)
    ensures (Weight(b, doubled) - Weight(a, doubled) + Weight(a, !doubled) - Weight(b, !doubled)) % 10 == 0
            <==> a == b || {a, b} == {0, 9}
  {
    SwapDelta(a, b, doubled);
    ZeroAndNine(a, b);
    hide Weight;
  }

  function CheckDigit(prefix: seq<DigitValue>): DigitValue {
    (10 - Sum(prefix + [0]) % 10) % 10
  }

  /** Every prefix has exactly one valid final digit. */
  lemma CheckDigitUnique(prefix: seq<DigitValue>, d: DigitValue)
    ensures Valid(prefix + [d]) <==> d == CheckDigit(prefix)
  {
    var n := |prefix|;
    assert (prefix + [0])[n := d] == prefix + [d];
    SumAfterUpdate(prefix + [0], n, d);
  }

  /** A doubled digit adds the digits of its double; any other adds itself. */
  lemma WeightIsDigitSum(d: DigitValue)
    ensures Weight(d, false) == d && Weight(d, true) == 2 * d / 10 + 2 * d % 10
  {
  }

  /** A number in common use for trials of the checksum is valid. */
  lemma KnownNumber()
    ensures Valid([7, 9, 9, 2, 7, 3, 9, 8, 7, 1, 3])
  {
    assert Sum([7, 9, 9, 2, 7, 3, 9, 8, 7, 1, 3]) == 70;
  }
}
