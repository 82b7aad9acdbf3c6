// The export boundary's decimal arithmetic (packages/exporters/src/decimal.ts). Fiat figures are
// reals counted in cents; a rounded figure is a whole number of cents.

module Rounding {

  // Decimal.ROUND_HALF_UP: to the nearest cent, halves away from zero (decimal.ts:14-16).
  function RoundHalfUp(cents: real): int {
    if cents >= 0.0 then (cents + 0.5).Floor else -((-cents + 0.5).Floor)
  }

  function Distance(a: real, b: real): real { if a >= b then a - b else b - a }

  // Within half a cent, symmetric around zero, the identity on whole cents, and the larger of the
  // two neighbours in magnitude at a half.
  lemma RoundHalfUpNearest(cents: real)
    ensures Distance(RoundHalfUp(cents) as real, cents) <= 0.5
    ensures RoundHalfUp(-cents) == -RoundHalfUp(cents)
    ensures cents == cents.Floor as real ==> RoundHalfUp(cents) == cents.Floor
    ensures Distance(RoundHalfUp(cents) as real, cents) == 0.5
            ==> Distance(RoundHalfUp(cents) as real, 0.0) == Distance(cents, 0.0) + 0.5
  {
  }

  // A gross amount without its VAT, before rounding (decimal.ts:29-31).
  function ExactNet(gross: int, rate: real): real
    requires rate > -100.0
  {
    (gross as real * 100.0) / (100.0 + rate)
  }

  // The net and its VAT at the rate make up the gross.
  lemma NetAndVat(gross: int, rate: real)
    requires rate > -100.0
    ensures ExactNet(gross, rate) + ExactNet(gross, rate) * rate / 100.0 == gross as real
  {
    var net := ExactNet(gross, rate);
    assert net * (100.0 + rate) == gross as real * 100.0;
    assert net * (100.0 + rate) == net * 100.0 + net * rate;
  }

  function NetOfVat(gross: int, rate: real): int
    requires rate > -100.0
  {
    RoundHalfUp(ExactNet(gross, rate))
  }

  lemma ExactNetBounds(gross: nat, rate: real)
    requires rate >= 0.0
    ensures 0.0 <= ExactNet(gross, rate) <= gross as real
  {
    var x, d := ExactNet(gross, rate), 100.0 + rate;
    assert x * d == gross as real * 100.0;
    if x < 0.0 { NegativeProduct(x, d); }
    if x > gross as real { LargerProduct(x, gross as real, d); LargerOrEqual(gross as real, 100.0, d); }
  }

  lemma NegativeProduct(x: real, d: real)
    requires x < 0.0 && d > 0.0
    ensures x * d < 0.0
  {
  }

  lemma LargerProduct(x: real, y: real, d: real)
    requires x > y && d > 0.0
    ensures x * d > y * d
  {
  }

  lemma LargerOrEqual(y: real, c: real, d: real)
    requires y >= 0.0 && d >= c
    ensures y * d >= y * c
  {
  }

  // The split: VAT and net are both between nothing and the gross, add up to it, and the net is the
  // exact one to within half a cent.
  lemma VatSplit(gross: nat, rate: real)
    requires rate >= 0.0
    ensures 0 <= NetOfVat(gross, rate) <= gross
    ensures Distance(NetOfVat(gross, rate) as real, ExactNet(gross, rate)) <= 0.5
  {
    ExactNetBounds(gross, rate);
    RoundHalfUpNearest(ExactNet(gross, rate));
  }
}
