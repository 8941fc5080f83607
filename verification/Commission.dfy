/** The half-up commission of a final report and its sum on the administrator's dashboard. */
module Commission {

  const RATE_UNIT: nat := 10000

  /** A rate has four decimals, so it is `rate / 10000`; the product is rounded to whole cents. */
  function CommissionCents(amount: nat, rate: nat): nat {
    var exact := amount * rate;
    var cents := exact / RATE_UNIT;
    if 2 * (exact % RATE_UNIT) >= RATE_UNIT then cents + 1 else cents
  }

  /** `c` cents is the nearest whole amount to the exact product, the upper one on a tie. */
  predicate IsHalfUp(exact: nat, c: int) {
    10000 * (2 * c - 1) <= 2 * exact < 10000 * (2 * c + 1)
  }

  lemma RoundsHalfUp(amount: nat, rate: nat, c: int)
    ensures IsHalfUp(amount * rate, c) <==> c == CommissionCents(amount, rate)
  {
    var exact := amount * rate;
    assert exact == RATE_UNIT * (exact / RATE_UNIT) + exact % RATE_UNIT;
  }

  lemma WithinAmount(amount: nat, rate: nat)
    requires rate <= RATE_UNIT
    ensures CommissionCents(amount, rate) <= amount
  {
    assert amount * rate <= amount * RATE_UNIT;
    RoundsHalfUp(amount, rate, CommissionCents(amount, rate));
  }

  lemma Monotone(amount: nat, rate: nat, amount': nat, rate': nat)
    requires amount <= amount' && rate <= rate'
    ensures CommissionCents(amount, rate) <= CommissionCents(amount', rate')
  {
    assert amount * rate <= amount' * rate <= amount' * rate';
    RoundsHalfUp(amount, rate, CommissionCents(amount, rate));
    RoundsHalfUp(amount', rate', CommissionCents(amount', rate'));
  }

  /** One confirmed report: its net revenue and the commission rate it was built with. */
  datatype Confirmed = Confirmed(net: nat, rate: nat)

  function ConfirmedCommission(reports: seq<Confirmed>): nat {
    if reports == [] then 0
    else
      var last := reports[|reports| - 1];
      ConfirmedCommission(reports[..|reports| - 1]) + CommissionCents(last.net, last.rate)
  }

  /** The exact total in ten-thousandths of a cent. */
  function ExactTotal(reports: seq<Confirmed>): nat {
    if reports == [] then 0
    else
      var last := reports[|reports| - 1];
      ExactTotal(reports[..|reports| - 1]) + last.net * last.rate
  }

  /** The dashboard's total over n reports is within n half cents of the exact total. */
  lemma {:induction false} TotalWithinHalfCents(reports: seq<Confirmed>)
    ensures 2 * ExactTotal(reports) <= RATE_UNIT * (2 * ConfirmedCommission(reports) + |reports|)
    ensures RATE_UNIT * (2 * ConfirmedCommission(reports) - |reports|) <= 2 * ExactTotal(reports)
  {
    if reports == [] {
    } else {
      var last := reports[|reports| - 1];
      TotalWithinHalfCents(reports[..|reports| - 1]);
      RoundsHalfUp(last.net, last.rate, CommissionCents(last.net, last.rate));
    }
  }
}
