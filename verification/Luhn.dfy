/**
 Luhn mod N, the check character of a printed code: factors 1 and 2 alternate from the
 end, and the two base-N digits of each product are added up.
 */
module Luhn {
  import opened Residues

  function Other(factor: nat): nat { if factor == 2 then 1 else 2 }

  function Addend(base: nat, factor: nat, value: nat): nat
    requires base > 0
  {
    factor * value / base + factor * value % base
  }

  /** `_luhn_mod_n_sum` from the last value on. */
  function Sum(values: seq<nat>, start: nat, base: nat): nat
    requires base > 0
  {
    if values == [] then 0
    else
      var n := |values| - 1;
      Addend(base, start, values[n]) + Sum(values[..n], Other(start), base)
  }

  /** `_luhn_mod_n_sum` as the program computes it. */
  method ComputeSum(values: seq<nat>, start: nat, base: nat) returns (total: nat)
    requires base > 0
    ensures total == Sum(values, start, base)
  {
    var factor, i := start, |values|;
    total := 0;
    assert values[..i] == values;
    while i > 0
      invariant 0 <= i <= |values|
      invariant total + Sum(values[..i], factor, base) == Sum(values, start, base)
    {
      i := i - 1;
      assert values[..i + 1][..i] == values[..i];
      var addend := factor * values[i];
      addend := addend / base + addend % base;
      total := total + addend;
      factor := if factor == 2 then 1 else 2;
    }
  }

  /** The whole sequence, check value last, passes `check_is_valid`. */
  predicate Valid(values: seq<nat>, base: nat)
    requires base > 0
  {
    Sum(values, 1, base) % base == 0
  }

  /** `compute_check_value` over the values before the check. */
  function CheckValue(values: seq<nat>, base: nat): nat
    requires base > 0
  {
    (base - Sum(values, 2, base) % base) % base
  }

  ghost predicate Symbols(values: seq<nat>, base: nat) {
    forall i | 0 <= i < |values| :: values[i] < base
  }

  // --------------------------------------------------------------- addends

  /** The addend of a value below the base, without the division. */
  function Digits(base: nat, factor: nat, v: nat): int {
    if factor == 1 || 2 * v < base then factor * v else 2 * v + 1 - base
  }

  lemma AddendIsDigits(base: nat, factor: nat, v: nat)
    requires v < base && (factor == 1 || factor == 2)
    ensures Addend(base, factor, v) == Digits(base, factor, v) && 0 <= Digits(base, factor, v) < base
  {
    var x := factor * v;
    if x < base { Division(base, x, 0, x); } else { Division(base, x, 1, x - base); }
  }

  function FactorAt(start: nat, fromEnd: nat): nat
    ensures start == 1 || start == 2 ==> FactorAt(start, fromEnd) == 1 || FactorAt(start, fromEnd) == 2
    decreases fromEnd
  {
    if fromEnd == 0 then start else FactorAt(Other(start), fromEnd - 1)
  }

  lemma {:induction false} FactorsAlternate(start: nat, fromEnd: nat)
    requires start == 1 || start == 2
    ensures FactorAt(start, fromEnd + 1) == Other(FactorAt(start, fromEnd))
    decreases fromEnd
  {
    if fromEnd > 0 { FactorsAlternate(Other(start), fromEnd - 1); }
  }

  /** Replacing one value moves the sum by the difference of the two addends. */
  lemma {:induction false} SumUpdate(values: seq<nat>, start: nat, base: nat, i: nat, v: nat)
    requires (start == 1 || start == 2) && i < |values| && values[i] < base && v < base
    ensures var f := FactorAt(start, |values| - 1 - i);
            Sum(values[i := v], start, base) == Sum(values, start, base) - Digits(base, f, values[i]) + Digits(base, f, v)
    decreases |values|
  {
    var n := |values| - 1;
    if i < n {
      assert values[i := v][..n] == values[..n][i := v];
      SumUpdate(values[..n], Other(start), base, i, v);
    } else {
      assert values[i := v][..n] == values[..n];
      AddendIsDigits(base, start, v);
      AddendIsDigits(base, start, values[i]);
    }
  }

  // -------------------------------------------------------------- theorems

  /** The computed check value passes, and no other value does. */
  lemma CheckIsTheOnlyOne(values: seq<nat>, base: nat, check: nat)
    requires base > 0 && check < base
    ensures CheckValue(values, base) < base
    ensures Valid(values + [check], base) <==> check == CheckValue(values, base)
  {
    assert (values + [check])[..|values|] == values;
    AddendIsDigits(base, 1, check);
    Complement(base, Sum(values, 2, base), check);
  }

  lemma Complement(base: nat, s: nat, check: nat)
    requires check < base
    ensures (check + s) % base == 0 <==> check == (base - s % base) % base
  {
    ResidueOfSum(base, s, check);
    var r := s % base;
    if r == 0 { Division(base, base, 1, 0); } else { Division(base, base - r, 0, base - r); }
    if r + check < base { Division(base, r + check, 0, r + check); } else { Division(base, r + check, 1, r + check - base); }
  }

  /** A sum that moves by less than the base, and moves, leaves its residue. */
  lemma SmallMove(base: nat, s: int, t: int)
    requires base > 0 && s % base == 0 && t - s < base && s - t < base
    ensures t % base == 0 <==> s == t
  {
    if t % base == 0 { SameResidue(base, s, t); }
  }

  /** Two values that double to the same addend: in an odd base, half the base apart, and neither zero. */
  predicate SameDouble(base: nat, a: nat, b: nat) {
    base % 2 == 1 && a >= 1 && b >= 1 && (a - b == base / 2 || b - a == base / 2)
  }

  /** Another value in a valid sequence goes unnoticed exactly when it is doubled there, to the same addend. */
  lemma SubstitutionUndetected(values: seq<nat>, base: nat, i: nat, v: nat)
    requires base > 0 && Symbols(values, base) && Valid(values, base)
    requires i < |values| && v < base && v != values[i]
    ensures Valid(values[i := v], base) <==> (|values| - 1 - i) % 2 == 1 && SameDouble(base, values[i], v)
  {
    var fromEnd := |values| - 1 - i;
    var f := FactorAt(1, fromEnd);
    FactorParity(fromEnd);
    SumUpdate(values, 1, base, i, v);
    AddendIsDigits(base, f, v);
    AddendIsDigits(base, f, values[i]);
    DigitsDiffer(base, f, values[i], v);
    SmallMove(base, Sum(values, 1, base), Sum(values[i := v], 1, base));
  }

  lemma {:induction false} FactorParity(fromEnd: nat)
    ensures FactorAt(1, fromEnd) == 1 + fromEnd % 2
    decreases fromEnd
  {
    if fromEnd > 0 {
      FactorParity(fromEnd - 1);
      FactorsAlternate(1, fromEnd - 1);
    }
  }

  /** The addends of one factor tell all values apart, but for those that double alike. */
  lemma DigitsDiffer(base: nat, f: nat, a: nat, b: nat)
    requires (f == 1 || f == 2) && a < base && b < base && a != b
    ensures Digits(base, f, a) == Digits(base, f, b) <==> f == 2 && SameDouble(base, a, b)
  {
  }

  function Swapped(values: seq<nat>, i: nat): seq<nat>
    requires i + 1 < |values|
  {
    values[i := values[i + 1]][i + 1 := values[i]]
  }

  /** Equal, or one the first and the other the last symbol. */
  predicate Alike(base: nat, a: nat, b: nat) {
    a == b || (a == 0 && b == base - 1) || (a == base - 1 && b == 0)
  }

  /** A swap moves the sum by less than the base, and not at all exactly when the two are alike. */
  lemma SwapMoves(values: seq<nat>, base: nat, i: nat)
    requires base > 0 && Symbols(values, base) && i + 1 < |values|
    ensures var move := Sum(Swapped(values, i), 1, base) - Sum(values, 1, base);
            move < base && -move < base && (move == 0 <==> Alike(base, values[i], values[i + 1]))
  {
    var a, b := values[i], values[i + 1];
    FactorsAlternate(1, |values| - 2 - i);
    SumUpdate(values, 1, base, i, b);
    SumUpdate(values[i := b], 1, base, i + 1, a);
    ExtraDigits(base, a, b);
  }

  /** What doubling adds to a value tells values apart, but for the first and the last. */
  lemma ExtraDigits(base: nat, a: nat, b: nat)
    requires a < base && b < base
    ensures var move := Digits(base, 2, a) - Digits(base, 1, a) - Digits(base, 2, b) + Digits(base, 1, b);
            move < base && -move < base && (move == 0 <==> Alike(base, a, b))
  {
  }

  /** Swapping neighbours goes unnoticed exactly when they are equal, or the first and the last symbol. */
  lemma SwapUndetected(values: seq<nat>, base: nat, i: nat)
    requires base > 0 && Symbols(values, base) && Valid(values, base) && i + 1 < |values|
    ensures Valid(Swapped(values, i), base) <==> Alike(base, values[i], values[i + 1])
  {
    SwapMoves(values, base, i);
    SmallMove(base, Sum(values, 1, base), Sum(Swapped(values, i), 1, base));
  }
}
