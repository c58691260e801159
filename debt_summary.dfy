/**
 * The debt summary card (subscription-summary.tsx at the repository root):
 * the gross monthly debt and the total paid so far, both in the display
 * currency.
 *
 * The debt is the same base total the monthly summary computes: payments do
 * not reduce it. A payment counts towards the paid figure at the rate of its
 * subscription's currency; a payment whose subscription, or whose
 * subscription's currency, is missing is ignored.
 */
module DebtSummary {
  import opened Types
  import opened MonthlySummary

  /** Every conversion rate is positive, as the forms and the import check demand. */
  predicate PositiveRates(cs: seq<Currency>) {
    forall c :: c in cs ==> c.conversionRate > 0.0
  }

  /** What one payment adds to the dollar total paid (lines 43-50). */
  function PaymentInDollars(p: Payment, subs: seq<Subscription>, cs: seq<Currency>): (r: real)
    requires NonzeroRates(cs)
    ensures var found := FindSubscription(subs, p.subscriptionId);
            found.None? || FindCurrency(cs, found.value.currencyId).None? ==> r == 0.0
  {
    match FindSubscription(subs, p.subscriptionId)
    case None => 0.0
    case Some(s) =>
      match FindCurrency(cs, s.currencyId)
      case None => 0.0
      case Some(c) => p.amount / c.conversionRate
  }

  /** A payment whose subscription and currency are found adds what that currency's rate turns back into its amount. */
  lemma PaymentConverts(p: Payment, subs: seq<Subscription>, cs: seq<Currency>)
    requires NonzeroRates(cs)
    requires FindSubscription(subs, p.subscriptionId).Some?
    requires FindCurrency(cs, FindSubscription(subs, p.subscriptionId).value.currencyId).Some?
    ensures PaymentInDollars(p, subs, cs) *
            FindCurrency(cs, FindSubscription(subs, p.subscriptionId).value.currencyId).value.conversionRate == p.amount
  {
    var rate := FindCurrency(cs, FindSubscription(subs, p.subscriptionId).value.currencyId).value.conversionRate;
    assert rate != 0.0;
    assert p.amount / rate * rate == p.amount;
  }

  /** Sum of the payments in dollars: the specification of `totalPaidUSD`. */
  function PaidBase(ps: seq<Payment>, subs: seq<Subscription>, cs: seq<Currency>): (r: real)
    requires NonzeroRates(cs)
    ensures |ps| == 0 ==> r == 0.0
    decreases |ps|
  {
    if |ps| == 0 then 0.0
    else PaidBase(ps[..|ps| - 1], subs, cs) + PaymentInDollars(ps[|ps| - 1], subs, cs)
  }

  /** Lines 27-37: the debt loop, skipping subscriptions whose currency is missing. */
  method DebtInDollars(subs: seq<Subscription>, cs: seq<Currency>) returns (totalDebtUSD: real)
    requires NonzeroRates(cs)
    ensures totalDebtUSD == BaseTotal(subs, cs)
  {
    totalDebtUSD := 0.0;
    var i := 0;
    while i < |subs|
      invariant 0 <= i <= |subs|
      invariant totalDebtUSD == BaseTotal(subs[..i], cs)
    {
      var sub := subs[i];
      var currency := FindCurrency(cs, sub.currencyId);
      if currency.Some? {
        var subTotal := SubTotal(sub);
        var amountInUSD := subTotal / currency.value.conversionRate;
        assert amountInUSD == Contribution(sub, cs);
        TotalStep(subs, cs, i, totalDebtUSD, amountInUSD);
        totalDebtUSD := totalDebtUSD + amountInUSD;
      } else {
        assert Contribution(sub, cs) == 0.0;
        TotalStep(subs, cs, i, totalDebtUSD, 0.0);
      }
      i := i + 1;
    }
    assert subs[..|subs|] == subs;
  }

  /** Lines 40-51: the paid loop, skipping payments whose subscription or currency is missing. */
  method PaidInDollars(ps: seq<Payment>, subs: seq<Subscription>, cs: seq<Currency>) returns (totalPaidUSD: real)
    requires NonzeroRates(cs)
    ensures totalPaidUSD == PaidBase(ps, subs, cs)
  {
    totalPaidUSD := 0.0;
    var j := 0;
    while j < |ps|
      invariant 0 <= j <= |ps|
      invariant totalPaidUSD == PaidBase(ps[..j], subs, cs)
    {
      assert ps[..j + 1][..j] == ps[..j];
      var payment := ps[j];
      var sub := FindSubscription(subs, payment.subscriptionId);
      if sub.Some? {
        var currency := FindCurrency(cs, sub.value.currencyId);
        if currency.Some? {
          var amountInUSD := payment.amount / currency.value.conversionRate;
          totalPaidUSD := totalPaidUSD + amountInUSD;
        }
      }
      j := j + 1;
    }
    assert ps[..|ps|] == ps;
  }

  /** Lines 25-60: both figures, taken to the display currency (lines 53-54). */
  method DebtAndPaid(subs: seq<Subscription>, cs: seq<Currency>, ps: seq<Payment>, selectedId: string)
    returns (totalDebt: real, totalPaid: real)
    requires NonzeroRates(cs)
    ensures totalDebt == InSelected(BaseTotal(subs, cs), FindCurrency(cs, selectedId))
    ensures totalPaid == InSelected(PaidBase(ps, subs, cs), FindCurrency(cs, selectedId))
  {
    var totalDebtUSD := DebtInDollars(subs, cs);
    var totalPaidUSD := PaidInDollars(ps, subs, cs);
    var selected := FindCurrency(cs, selectedId);
    totalDebt := InSelected(totalDebtUSD, selected);
    totalPaid := InSelected(totalPaidUSD, selected);
  }

  /** A payment adds its amount at its subscription's rate; an orphaned one adds nothing. */
  lemma PaidStep(ps: seq<Payment>, p: Payment, subs: seq<Subscription>, cs: seq<Currency>)
    requires NonzeroRates(cs)
    ensures PaidBase(ps + [p], subs, cs) == PaidBase(ps, subs, cs) + PaymentInDollars(p, subs, cs)
  {
    assert (ps + [p])[..|ps|] == ps;
  }

  /** A payment whose subscription or currency cannot be found leaves the paid figure as it was. */
  lemma OrphanPaymentIgnored(ps: seq<Payment>, p: Payment, subs: seq<Subscription>, cs: seq<Currency>)
    requires NonzeroRates(cs)
    requires FindSubscription(subs, p.subscriptionId).None? ||
             FindCurrency(cs, FindSubscription(subs, p.subscriptionId).value.currencyId).None?
    ensures PaidBase(ps + [p], subs, cs) == PaidBase(ps, subs, cs)
  {
    PaidStep(ps, p, subs, cs);
  }

  /** With positive rates, recording a payment of a non-negative amount never lowers the paid figure. */
  lemma PaidNeverDecreases(ps: seq<Payment>, p: Payment, subs: seq<Subscription>, cs: seq<Currency>)
    requires NonzeroRates(cs) && PositiveRates(cs) && p.amount >= 0.0
    ensures PaidBase(ps + [p], subs, cs) >= PaidBase(ps, subs, cs)
  {
    PaidStep(ps, p, subs, cs);
    var s := FindSubscription(subs, p.subscriptionId);
    if s.Some? {
      var c := FindCurrency(cs, s.value.currencyId);
      if c.Some? {
        assert c.value in cs;
        NonNegativeQuotient(p.amount, c.value.conversionRate);
      }
    }
  }

  /** With no payments nothing has been paid; with non-negative payments the figure is non-negative. */
  lemma {:induction false} PaidNonNegative(ps: seq<Payment>, subs: seq<Subscription>, cs: seq<Currency>)
    requires NonzeroRates(cs) && PositiveRates(cs)
    requires forall p :: p in ps ==> p.amount >= 0.0
    ensures PaidBase(ps, subs, cs) >= 0.0
    ensures |ps| == 0 ==> PaidBase(ps, subs, cs) == 0.0
    decreases |ps|
  {
    if |ps| > 0 {
      var init := ps[..|ps| - 1];
      var last := ps[|ps| - 1];
      InitAndLast(ps);
      PaidNonNegative(init, subs, cs);
      PaidNeverDecreases(init, last, subs, cs);
    }
  }

  lemma InitAndLast<T>(xs: seq<T>)
    requires |xs| > 0
    ensures forall x :: x in xs[..|xs| - 1] ==> x in xs
    ensures xs[..|xs| - 1] + [xs[|xs| - 1]] == xs
  {
  }
}
