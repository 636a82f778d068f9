/**
 The discount combiner of a sale order line: three percentage fields
 (`discount`, `discount2`, `discount3`) folded into one effective discount,
 additively (summed, then clamped to [0, 100]) or multiplicatively (each
 discount applied to what the previous ones left).

 Percentages are exact reals; the host's float rounding is not modelled.
 */
module TripleDiscount {

  /** A stored discount field: unset (no value) or a percentage. */
  datatype Field = Unset | Set(pct: real)

  /** The three discount fields of a line, in field order. */
  datatype Discounts = Discounts(discount: Field, discount2: Field, discount3: Field)

  /** The part of an order line the combiner reads. `mode` is the stored
      selection value of `discounting_type`. */
  datatype OrderLine = OrderLine(discounts: Discounts, mode: string)

  datatype DiscountError = UnknownDiscountingType(mode: string)

  datatype Result<T> = Success(value: T) | Failure(error: DiscountError)

  const Additive: string := "additive"
  const Multiplicative: string := "multiplicative"

  predicate KnownMode(mode: string) {
    mode == Additive || mode == Multiplicative
  }

  /** The value a field contributes: an unset field counts as 0. */
  function PercentOf(f: Field): real {
    match f
    case Unset => 0.0
    case Set(p) => p
  }

  /** The three percentages in field order (`discount`, `discount2`, `discount3`). */
  function Percents(d: Discounts): seq<real> {
    [PercentOf(d.discount), PercentOf(d.discount2), PercentOf(d.discount3)]
  }

  function Sum(xs: seq<real>): real {
    if xs == [] then 0.0 else Sum(xs[..|xs| - 1]) + xs[|xs| - 1]
  }

  lemma SumOfThree(a: real, b: real, c: real)
    ensures Sum([a, b, c]) == a + b + c
  {
    assert [a, b, c][..2] == [a, b] && [a, b][..1] == [a] && [a][..0] == [];
    assert Sum([a]) == Sum([]) + a;
    assert Sum([a, b]) == Sum([a]) + b;
    assert Sum([a, b, c]) == Sum([a, b]) + c;
  }

  function Min(a: real, b: real): real { if a <= b then a else b }
  function Max(a: real, b: real): real { if a <= b then b else a }

  /** Additive policy: the sum of the three percentages, clamped to [0, 100]. */
  function AdditiveDiscount(d: Discounts): (r: real)
    ensures 0.0 <= r <= 100.0
    ensures r == Min(100.0, Max(0.0, PercentOf(d.discount) + PercentOf(d.discount2) + PercentOf(d.discount3)))
  {
    var total := Sum(Percents(d));
    SumOfThree(PercentOf(d.discount), PercentOf(d.discount2), PercentOf(d.discount3));
    if total <= 0.0 then 0.0
    else if total >= 100.0 then 100.0
    else total
  }

  /** The fraction of the price a discount of `p` percent leaves. */
  function Retention(p: real): real {
    1.0 - p / 100.0
  }

  /** Multiplicative policy, in closed form: 100 - 100 * (1 - d1/100)(1 - d2/100)(1 - d3/100). */
  function MultiplicativeFormula(d: Discounts): real {
    100.0 - 100.0 * (Retention(PercentOf(d.discount)) * Retention(PercentOf(d.discount2)) * Retention(PercentOf(d.discount3)))
  }

  /** Product of a sequence, multiplied from the left. */
  function Product(xs: seq<real>): real {
    if xs == [] then 1.0 else Product(xs[..|xs| - 1]) * xs[|xs| - 1]
  }

  lemma ProductOfThree(a: real, b: real, c: real)
    ensures Product([a, b, c]) == a * b * c
  {
    assert [a, b, c][..2] == [a, b] && [a, b][..1] == [a] && [a][..0] == [];
    assert Product([a]) == Product([]) * a;
    assert Product([a, b]) == Product([a]) * b;
    assert Product([a, b, c]) == Product([a, b]) * c;
  }

  /** Multiplicative policy as the line computes it: the retention factors in
      field order, multiplied into an accumulator that starts at 1. */
  method MultiplicativeDiscount(d: Discounts) returns (r: real)
    ensures r == MultiplicativeFormula(d)
  {
    var fields := Percents(d);
    var factors := seq(|fields|, i requires 0 <= i < |fields| => Retention(fields[i]));
    var acc := 1.0;
    for i := 0 to |factors|
      invariant acc == Product(factors[..i])
    {
      assert factors[..i + 1][..i] == factors[..i];
      acc := acc * factors[i];
    }
    assert factors[..|factors|] == factors;
    assert factors == [Retention(fields[0]), Retention(fields[1]), Retention(fields[2])];
    ProductOfThree(Retention(fields[0]), Retention(fields[1]), Retention(fields[2]));
    r := 100.0 - acc * 100.0;
  }

  /** The combined discount of a line under its discounting type; any other
      type is an error and yields no value. */
  function FinalDiscount(line: OrderLine): (r: Result<real>)
    ensures r.Success? <==> KnownMode(line.mode)
    ensures r.Failure? ==> r.error == UnknownDiscountingType(line.mode)
    ensures line.mode == Additive ==> r.Success? && 0.0 <= r.value <= 100.0
  {
    if line.mode == Additive then Success(AdditiveDiscount(line.discounts))
    else if line.mode == Multiplicative then Success(MultiplicativeFormula(line.discounts))
    else Failure(UnknownDiscountingType(line.mode))
  }

  /** The combined discount depends on the fields only through their percentages. */
  lemma SamePercentsSameDiscount(a: OrderLine, b: OrderLine)
    requires a.mode == b.mode
    requires PercentOf(a.discounts.discount) == PercentOf(b.discounts.discount)
    requires PercentOf(a.discounts.discount2) == PercentOf(b.discounts.discount2)
    requires PercentOf(a.discounts.discount3) == PercentOf(b.discounts.discount3)
    ensures FinalDiscount(a) == FinalDiscount(b)
  {
    assert AdditiveDiscount(a.discounts) == AdditiveDiscount(b.discounts);
    assert MultiplicativeFormula(a.discounts) == MultiplicativeFormula(b.discounts);
  }

  /** An unset field is combined exactly as a field holding 0, under either
      policy, whichever of the three fields it is. */
  lemma UnsetCountsAsZero(line: OrderLine)
    ensures var d := line.discounts;
      && FinalDiscount(line.(discounts := d.(discount := Unset))) == FinalDiscount(line.(discounts := d.(discount := Set(0.0))))
      && FinalDiscount(line.(discounts := d.(discount2 := Unset))) == FinalDiscount(line.(discounts := d.(discount2 := Set(0.0))))
      && FinalDiscount(line.(discounts := d.(discount3 := Unset))) == FinalDiscount(line.(discounts := d.(discount3 := Set(0.0))))
  {
    var d := line.discounts;
    SamePercentsSameDiscount(line.(discounts := d.(discount := Unset)), line.(discounts := d.(discount := Set(0.0))));
    SamePercentsSameDiscount(line.(discounts := d.(discount2 := Unset)), line.(discounts := d.(discount2 := Set(0.0))));
    SamePercentsSameDiscount(line.(discounts := d.(discount3 := Unset)), line.(discounts := d.(discount3 := Set(0.0))));
  }

  /** The additive result pinned at its edges: 0 when the sum is at most 0,
      100 when it is at least 100, the sum itself in between. */
  lemma AdditiveCases(d: Discounts)
    ensures var s := PercentOf(d.discount) + PercentOf(d.discount2) + PercentOf(d.discount3);
      && (s <= 0.0 ==> AdditiveDiscount(d) == 0.0)
      && (s >= 100.0 ==> AdditiveDiscount(d) == 100.0)
      && (0.0 < s < 100.0 ==> AdditiveDiscount(d) == s)
  {
  }

  /** With no discount at all, the multiplicative policy gives no discount. */
  lemma MultiplicativeOfNothing(d: Discounts)
    requires PercentOf(d.discount) == PercentOf(d.discount2) == PercentOf(d.discount3) == 0.0
    ensures MultiplicativeFormula(d) == 0.0
  {
  }

  lemma ProductOfFractions(a: real, b: real)
    requires 0.0 <= a <= 1.0 && 0.0 <= b <= 1.0
    ensures 0.0 <= a * b <= 1.0
  {
    ProductOfNonNegatives(a, b);
    ProductOfNonNegatives(a, 1.0 - b);
    assert a * (1.0 - b) == a - a * b;
  }

  lemma ProductOfNonNegatives(a: real, b: real)
    requires 0.0 <= a && 0.0 <= b
    ensures 0.0 <= a * b
  {
  }

  /** With every percentage in [0, 100], the multiplicative result is in [0, 100]. */
  lemma MultiplicativeWithinBounds(d: Discounts)
    requires 0.0 <= PercentOf(d.discount) <= 100.0
    requires 0.0 <= PercentOf(d.discount2) <= 100.0
    requires 0.0 <= PercentOf(d.discount3) <= 100.0
    ensures 0.0 <= MultiplicativeFormula(d) <= 100.0
  {
    var ps := Percents(d);
    ProductOfFractions(Retention(ps[0]), Retention(ps[1]));
    ProductOfFractions(Retention(ps[0]) * Retention(ps[1]), Retention(ps[2]));
  }

  /** When every percentage is at most 100 (the stored-field limits, together
      with the host's limit on `discount`), the multiplicative result is at most
      100; there is no lower bound, since a negative discount raises the price. */
  lemma MultiplicativeAtMostHundred(d: Discounts)
    requires PercentOf(d.discount) <= 100.0
    requires PercentOf(d.discount2) <= 100.0
    requires PercentOf(d.discount3) <= 100.0
    ensures MultiplicativeFormula(d) <= 100.0
  {
    var ps := Percents(d);
    ProductOfNonNegatives(Retention(ps[0]), Retention(ps[1]));
    ProductOfNonNegatives(Retention(ps[0]) * Retention(ps[1]), Retention(ps[2]));
  }

  /** A line whose second discount is -100 gets a combined discount of -100
      under the multiplicative policy, although every field is within its limit. */
  lemma MultiplicativeCanBeNegative()
    ensures MultiplicativeFormula(Discounts(Set(0.0), Set(-100.0), Unset)) == -100.0
  {
  }

  /** Re-combining an already combined line, whose secondary discounts are
      zero, gives back the combined value, under either policy. */
  lemma FinalDiscountStable(line: OrderLine)
    requires KnownMode(line.mode)
    ensures var f := FinalDiscount(line).value;
      FinalDiscount(line.(discounts := Discounts(Set(f), Set(0.0), Set(0.0)))) == Success(f)
  {
  }

  /** The combined values the two policies give for a few sample lines. */
  lemma SampleDiscounts()
    ensures AdditiveDiscount(Discounts(Set(40.0), Set(40.0), Set(40.0))) == 100.0
    ensures AdditiveDiscount(Discounts(Set(10.0), Set(20.0), Set(5.0))) == 35.0
    ensures AdditiveDiscount(Discounts(Set(-5.0), Unset, Set(0.0))) == 0.0
    ensures MultiplicativeFormula(Discounts(Set(50.0), Set(50.0), Set(0.0))) == 75.0
    ensures MultiplicativeFormula(Discounts(Set(10.0), Set(10.0), Set(10.0))) == 27.1
  {
  }
}
