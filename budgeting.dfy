// How an agent's budget for a period follows the central bank's key rate: the
// agent remembers the largest credit it was last willing to take, scales it by
// the gap between its own internal rate of return and the key rate on every
// call, and may spend its balance plus that credit, though never less than zero.
module Budgeting {
  import opened Numbers

  /** The agent's internal rate of return, against which the key rate is compared. */
  const InternalRateOfReturn: real := 0.05

  /** The factor applied to the remembered credit at a given key rate. */
  function TransmissionFactor(keyRate: real): (r: real)
    ensures keyRate < InternalRateOfReturn ==> r > 1.0
    ensures keyRate == InternalRateOfReturn ==> r == 1.0
    ensures keyRate > InternalRateOfReturn ==> r < 1.0
  {
    1.0 + (InternalRateOfReturn - keyRate) / 50.0
  }

  /** The remembered credit after one adjustment; an undefined credit stays undefined. */
  function Scaled(credit: Num, keyRate: real): (r: Num)
    ensures r.NaN? <==> credit.NaN?
  {
    match credit
    case NaN => NaN
    case Finite(v) => Finite(v * TransmissionFactor(keyRate))
  }

  /** The credit in force before the adjustment: the reference until a credit is remembered. */
  function Seeded(credit: Num, referenceCredit: Num): (r: Num)
    ensures credit.Finite? ==> r == credit
    ensures credit.NaN? ==> r == referenceCredit
  {
    if credit.NaN? then referenceCredit else credit
  }

  /** What one call leaves in the remembered credit. */
  function Adjusted(credit: Num, referenceCredit: Num, keyRate: real): Num
  {
    Scaled(Seeded(credit, referenceCredit), keyRate)
  }

  /**
   * Math.max(0, balance + credit): never negative, and either zero or the
   * balance plus the credit; an undefined credit makes the budget undefined,
   * as Math.max propagates NaN.
   */
  function CreditBasedBudget(balance: real, credit: Num): (r: Num)
    ensures r.NaN? <==> credit.NaN?
    ensures r.Finite? ==> r.value >= 0.0 && r.value >= balance + credit.value
    ensures r.Finite? ==> r.value == 0.0 || r.value == balance + credit.value
  {
    match credit
    case NaN => NaN
    case Finite(v) => Finite(Max(0.0, balance + v))
  }

  class BudgetingBehaviour {
    var lastMaxCredit: Num

    constructor ()
      ensures lastMaxCredit == NaN
    {
      lastMaxCredit := NaN;
    }

    /**
     * calculateTransmissionBasedBudgetForPeriod: seed the remembered credit
     * from the reference if none is remembered, scale it by the key rate, and
     * return the budget it allows; the key rate is the central bank's
     * effective rate for the currency, passed in.
     */
    method CalculateTransmissionBasedBudgetForPeriod(balance: real, referenceCredit: Num, keyRate: real)
      returns (budget: Num)
      modifies this
      ensures lastMaxCredit == Adjusted(old(lastMaxCredit), referenceCredit, keyRate)
      ensures budget == CreditBasedBudget(balance, lastMaxCredit)
    {
      if lastMaxCredit.NaN? {
        lastMaxCredit := referenceCredit;
      }
      lastMaxCredit := Scaled(lastMaxCredit, keyRate);
      budget := CreditBasedBudget(balance, lastMaxCredit);
    }
  }

  /** At the internal rate of return the remembered credit is left as it was. */
  lemma NeutralRateKeepsCredit(credit: Num)
    requires credit.Finite?
    ensures Adjusted(credit, NaN, InternalRateOfReturn) == credit
  {
  }

  /** A key rate below the internal rate of return raises a positive credit. */
  lemma CheapMoneyRaisesCredit(v: real, keyRate: real)
    requires v > 0.0 && keyRate < InternalRateOfReturn
    ensures Scaled(Finite(v), keyRate).value > v
  {
    var f := TransmissionFactor(keyRate);
    assert v * f - v == v * (f - 1.0);
    assert v * (f - 1.0) > 0.0;
  }

  /** A key rate above the internal rate of return lowers a positive credit. */
  lemma DearMoneyLowersCredit(v: real, keyRate: real)
    requires v > 0.0 && keyRate > InternalRateOfReturn
    ensures Scaled(Finite(v), keyRate).value < v
  {
    var f := TransmissionFactor(keyRate);
    assert v - v * f == v * (1.0 - f);
    assert v * (1.0 - f) > 0.0;
  }

  /** Once a credit is remembered, the reference passed in no longer matters. */
  lemma ReferenceIgnoredOnceSeeded(credit: Num, ref1: Num, ref2: Num, keyRate: real)
    requires credit.Finite?
    ensures Adjusted(credit, ref1, keyRate) == Adjusted(credit, ref2, keyRate)
  {
  }

  /** The remembered credit after a run of calls with these references and key rates. */
  function Calls(credit: Num, refs: seq<Num>, rates: seq<real>): Num
    requires |refs| == |rates|
    decreases |rates|
  {
    if rates == [] then credit
    else Calls(Adjusted(credit, refs[0], rates[0]), refs[1..], rates[1..])
  }

  /** The product of the factors of a run of key rates. */
  function Compounded(rates: seq<real>): real
    decreases |rates|
  {
    if rates == [] then 1.0 else TransmissionFactor(rates[0]) * Compounded(rates[1..])
  }

  /** A remembered credit is compounded over the run, whatever references are passed. */
  lemma {:induction false} RememberedCreditCompounds(v: real, refs: seq<Num>, rates: seq<real>)
    requires |refs| == |rates|
    ensures Calls(Finite(v), refs, rates) == Finite(v * Compounded(rates))
    decreases |rates|
  {
    if rates != [] {
      var f := TransmissionFactor(rates[0]);
      assert Adjusted(Finite(v), refs[0], rates[0]) == Finite(v * f);
      RememberedCreditCompounds(v * f, refs[1..], rates[1..]);
      assert v * f * Compounded(rates[1..]) == v * (f * Compounded(rates[1..]));
    }
  }

  /**
   * From a fresh behaviour, a finite first reference is the only one that
   * counts: the credit after the run is that reference compounded.
   */
  lemma {:induction false} FirstReferenceSeedsCredit(refs: seq<Num>, rates: seq<real>)
    requires |refs| == |rates| && |rates| > 0 && refs[0].Finite?
    ensures Calls(NaN, refs, rates) == Finite(refs[0].value * Compounded(rates))
  {
    var f := TransmissionFactor(rates[0]);
    assert Adjusted(NaN, refs[0], rates[0]) == Finite(refs[0].value * f);
    RememberedCreditCompounds(refs[0].value * f, refs[1..], rates[1..]);
    assert refs[0].value * f * Compounded(rates[1..]) == refs[0].value * (f * Compounded(rates[1..]));
  }
}
