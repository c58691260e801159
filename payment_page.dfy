/**
 * The payment page (components/payment-page.tsx): the outstanding balance
 * of each subscription, the total debt, the list of subscriptions still
 * owing, restarting the cycle and "Pay All".
 *
 * A balance is the subscription's tax-inclusive charge less the payments
 * recorded against its id, rounded half up to cents and floored at zero.
 * Balances are in each subscription's own currency and the total debt adds
 * them without conversion.
 */
module PaymentPage {
  import opened Types
  import opened Ledger
  import MonthlySummary

  /** An amount with no fraction of a cent. */
  predicate WholeCents(x: real) {
    (x * 100.0).Floor as real == x * 100.0
  }

  /** `Math.round(x * 100) / 100`: rounding to cents, halves going up. */
  function Round2(x: real): (r: real)
    ensures WholeCents(r)
    ensures x - 0.005 < r <= x + 0.005
  {
    var cents := (x * 100.0 + 0.5).Floor;
    assert cents as real / 100.0 * 100.0 == cents as real;
    cents as real / 100.0
  }

  /** Rounding an amount that is already in whole cents changes nothing. */
  lemma Round2Idempotent(x: real)
    ensures Round2(Round2(x)) == Round2(x)
  {
    var f := (x * 100.0 + 0.5).Floor;
    assert Round2(x) * 100.0 == f as real;
    assert (f as real + 0.5).Floor == f;
  }

  /** What is left after paying a rounded amount rounds to nothing. */
  lemma Round2Residue(x: real)
    ensures Round2(x - Round2(x)) == 0.0
  {
    var f := (x * 100.0 + 0.5).Floor;
    var d := x - Round2(x);
    assert d * 100.0 + 0.5 == x * 100.0 + 0.5 - f as real;
    assert 0.0 <= d * 100.0 + 0.5 < 1.0;
    assert (d * 100.0 + 0.5).Floor == 0;
  }

  /** A non-negative amount rounds to a non-negative one. */
  lemma Round2NonNegative(x: real)
    requires x >= 0.0
    ensures Round2(x) >= 0.0
  {
    assert x * 100.0 + 0.5 >= 0.0;
  }

  /** Line 28: the charge including tax, written as `amount * (1 + (hasTax ? taxRate / 100 : 0))`. */
  function PlanTotal(s: Subscription): (t: real)
    ensures !s.hasTax ==> t == s.amount
    ensures s.hasTax ==> t == s.amount + s.amount * s.taxRate / 100.0
  {
    s.amount * (1.0 + (if s.hasTax then s.taxRate / 100.0 else 0.0))
  }

  /** The payment page and the summary card charge the same for a subscription. */
  lemma PlanTotalIsSubTotal(s: Subscription)
    ensures PlanTotal(s) == MonthlySummary.SubTotal(s)
  {
  }

  /** Line 29: the payments recorded against one subscription id. */
  function PaymentsFor(ps: seq<Payment>, id: string): (r: seq<Payment>)
    ensures forall p :: p in r <==> p in ps && p.subscriptionId == id
  {
    Filter(ps, (p: Payment) => p.subscriptionId == id)
  }

  /** Line 30: `reduce((sum, p) => sum + p.amount, 0)`. */
  function SumAmounts(ps: seq<Payment>): (r: real)
    ensures (forall i :: 0 <= i < |ps| ==> ps[i].amount >= 0.0) ==> r >= 0.0
    ensures |ps| == 0 ==> r == 0.0
    decreases |ps|
  {
    if |ps| == 0 then 0.0 else SumAmounts(ps[..|ps| - 1]) + ps[|ps| - 1].amount
  }

  /** What has been paid towards one subscription: nothing without payments against its id. */
  function PaidTowards(ps: seq<Payment>, id: string): (r: real)
    ensures (forall p :: p in ps ==> p.subscriptionId != id) ==> r == 0.0
    ensures (forall p :: p in ps ==> p.amount >= 0.0) ==> r >= 0.0
  {
    var mine := PaymentsFor(ps, id);
    NoMemberMeansEmpty(mine);
    assert forall i :: 0 <= i < |mine| ==> mine[i] in mine;
    SumAmounts(mine)
  }

  /** Line 33: a rounded outstanding amount, or zero when nothing (or less than nothing) is owed. */
  function Owed(outstanding: real): (r: real)
    ensures r >= 0.0
    ensures WholeCents(r)
    ensures r > 0.0 <==> Round2(outstanding) > 0.0
    ensures r > 0.0 ==> r == Round2(outstanding)
  {
    var rounded := Round2(outstanding);
    if rounded > 0.0 then rounded else 0.0
  }

  /** Lines 21-34: the outstanding balance of the subscription with that id. */
  function Balance(subs: seq<Subscription>, cs: seq<Currency>, ps: seq<Payment>, id: string): (b: real)
    ensures b >= 0.0
    ensures FindSubscription(subs, id).None? ==> b == 0.0
    ensures FindSubscription(subs, id).Some? && FindCurrency(cs, FindSubscription(subs, id).value.currencyId).None? ==> b == 0.0
    ensures FindSubscription(subs, id).Some? && FindCurrency(cs, FindSubscription(subs, id).value.currencyId).Some? ==>
              var rounded := Round2(PlanTotal(FindSubscription(subs, id).value) - PaidTowards(ps, id));
              b == (if rounded > 0.0 then rounded else 0.0)
    ensures WholeCents(b)
  {
    var paid := PaidTowards(ps, id);
    BalanceAfter(subs, cs, id, paid)
  }

  /** Lines 22-33 once `paid` has been paid towards the subscription: the rounded rest of its charge. */
  function BalanceAfter(subs: seq<Subscription>, cs: seq<Currency>, id: string, paid: real): (b: real)
    ensures b >= 0.0
    ensures FindSubscription(subs, id).None? ==> b == 0.0
    ensures FindSubscription(subs, id).Some? && FindCurrency(cs, FindSubscription(subs, id).value.currencyId).None? ==> b == 0.0
    ensures FindSubscription(subs, id).Some? && FindCurrency(cs, FindSubscription(subs, id).value.currencyId).Some? ==>
              var rounded := Round2(PlanTotal(FindSubscription(subs, id).value) - paid);
              b == (if rounded > 0.0 then rounded else 0.0)
    ensures WholeCents(b)
  {
    match FindSubscription(subs, id)
    case None => 0.0
    case Some(s) =>
      match FindCurrency(cs, s.currencyId)
      case None => 0.0
      case Some(_) => Owed(PlanTotal(s) - paid)
  }

  /** Recording a payment adds its amount to what was paid towards its own subscription only. */
  lemma PaidTowardsAppend(ps: seq<Payment>, p: Payment, id: string)
    ensures PaidTowards(ps + [p], id) == PaidTowards(ps, id) + (if p.subscriptionId == id then p.amount else 0.0)
  {
    var keep := (q: Payment) => q.subscriptionId == id;
    FilterConcat(ps, [p], keep);
    var before := Filter(ps, keep);
    if p.subscriptionId == id {
      assert Filter([p], keep) == [p];
      assert (before + [p])[..|before|] == before;
    } else {
      assert Filter([p], keep) == [];
      assert before + [] == before;
    }
  }

  /** Only payments against the subscription's own id change its balance. */
  lemma OtherPaymentsIgnored(subs: seq<Subscription>, cs: seq<Currency>, ps: seq<Payment>, p: Payment, id: string)
    requires p.subscriptionId != id
    ensures Balance(subs, cs, ps + [p], id) == Balance(subs, cs, ps, id)
  {
    PaidTowardsAppend(ps, p, id);
  }

  /**
   * Whenever something is owed, the balance is the charge less the payments
   * to within half a cent.
   */
  lemma BalanceNearOutstanding(subs: seq<Subscription>, cs: seq<Currency>, ps: seq<Payment>, s: Subscription)
    requires FindSubscription(subs, s.id) == Some(s)
    requires FindCurrency(cs, s.currencyId).Some?
    requires PlanTotal(s) - PaidTowards(ps, s.id) >= 0.005
    ensures -0.005 < Balance(subs, cs, ps, s.id) - (PlanTotal(s) - PaidTowards(ps, s.id)) <= 0.005
  {
  }

  /** Recording a payment of exactly the balance, whatever its shape, leaves nothing owed. */
  lemma PayingBalanceClears(subs: seq<Subscription>, cs: seq<Currency>, ps: seq<Payment>, p: Payment)
    requires p.amount == Balance(subs, cs, ps, p.subscriptionId)
    ensures Balance(subs, cs, ps + [p], p.subscriptionId) == 0.0
  {
    PaidTowardsAppend(ps, p, p.subscriptionId);
    PayingRestClears(subs, cs, p.subscriptionId, PaidTowards(ps, p.subscriptionId), p.amount, PaidTowards(ps + [p], p.subscriptionId));
  }

  lemma PayingRestClears(subs: seq<Subscription>, cs: seq<Currency>, id: string, paid: real, amount: real, paidAfter: real)
    requires amount == BalanceAfter(subs, cs, id, paid) && paidAfter == paid + amount
    ensures BalanceAfter(subs, cs, id, paidAfter) == 0.0
  {
    match FindSubscription(subs, id)
    case None =>
    case Some(s) =>
      match FindCurrency(cs, s.currencyId)
      case None =>
      case Some(_) =>
        var x := PlanTotal(s) - paid;
        assert PlanTotal(s) - paidAfter == x - amount;
        if amount > 0.0 {
          Round2Residue(x);
        }
  }

  /** Taking whole cents off before rounding takes them off after. */
  lemma Round2ShiftCents(x: real, k: int)
    ensures Round2(x - k as real / 100.0) == Round2(x) - k as real / 100.0
  {
    var f := (x * 100.0 + 0.5).Floor;
    var y := (x - k as real / 100.0) * 100.0 + 0.5;
    assert y == x * 100.0 + 0.5 - k as real;
    assert (f - k) as real <= y < (f - k) as real + 1.0;
    assert y.Floor == f - k;
  }

  /**
   * A payment in whole cents, no larger than the balance, lowers the
   * balance by exactly its amount.
   */
  lemma PaymentLowersBalance(subs: seq<Subscription>, cs: seq<Currency>, ps: seq<Payment>, p: Payment, cents: int)
    requires p.amount == cents as real / 100.0
    requires 0.0 < p.amount <= Balance(subs, cs, ps, p.subscriptionId)
    ensures Balance(subs, cs, ps + [p], p.subscriptionId) == Balance(subs, cs, ps, p.subscriptionId) - p.amount
  {
    PaidTowardsAppend(ps, p, p.subscriptionId);
    PayingCentsLowers(subs, cs, p.subscriptionId, PaidTowards(ps, p.subscriptionId), cents, PaidTowards(ps + [p], p.subscriptionId));
  }

  lemma PayingCentsLowers(subs: seq<Subscription>, cs: seq<Currency>, id: string, paid: real, cents: int, paidAfter: real)
    requires 0.0 < cents as real / 100.0 <= BalanceAfter(subs, cs, id, paid)
    requires paidAfter == paid + cents as real / 100.0
    ensures BalanceAfter(subs, cs, id, paidAfter) == BalanceAfter(subs, cs, id, paid) - cents as real / 100.0
  {
    var s := FindSubscription(subs, id).value;
    var x := PlanTotal(s) - paid;
    var c := cents as real / 100.0;
    assert BalanceAfter(subs, cs, id, paid) == Owed(x);
    assert BalanceAfter(subs, cs, id, paidAfter) == Owed(PlanTotal(s) - paidAfter);
    assert PlanTotal(s) - paidAfter == x - c;
    OwedLowers(x, cents);
  }

  /** Paying whole cents, no more than is owed, lowers what is owed by exactly that much. */
  lemma OwedLowers(x: real, cents: int)
    requires 0.0 < cents as real / 100.0 <= Owed(x)
    ensures Owed(x - cents as real / 100.0) == Owed(x) - cents as real / 100.0
  {
    Round2ShiftCents(x, cents);
  }

  /** After a restart no payment is left, so a balance is the rounded charge alone. */
  lemma BalanceAfterRestart(subs: seq<Subscription>, cs: seq<Currency>, s: Subscription)
    requires FindSubscription(subs, s.id) == Some(s)
    requires FindCurrency(cs, s.currencyId).Some?
    requires PlanTotal(s) >= 0.0
    ensures Balance(subs, cs, [], s.id) == Round2(PlanTotal(s))
  {
    assert PaymentsFor([], s.id) == [];
    Round2NonNegative(PlanTotal(s));
  }

  /** Sum of the balances of the listed subscriptions, each looked up by id in `subs`. */
  function DebtOver(items: seq<Subscription>, subs: seq<Subscription>, cs: seq<Currency>, ps: seq<Payment>): real
    decreases |items|
  {
    if |items| == 0 then 0.0 else DebtOver(items[..|items| - 1], subs, cs, ps) + Balance(subs, cs, ps, items[|items| - 1].id)
  }

  /** Lines 36-40: the balances added up, in no common currency. */
  function TotalDebt(subs: seq<Subscription>, cs: seq<Currency>, ps: seq<Payment>): (r: real)
    ensures r >= 0.0
    ensures r == 0.0 <==> forall s :: s in subs ==> Balance(subs, cs, ps, s.id) == 0.0
  {
    DebtOverZero(subs, subs, cs, ps);
    DebtOver(subs, subs, cs, ps)
  }

  /** Line 42: the subscriptions still owing something, in list order. */
  function SubscriptionsWithBalance(subs: seq<Subscription>, cs: seq<Currency>, ps: seq<Payment>): (r: seq<Subscription>)
    ensures forall s :: s in r <==> s in subs && Balance(subs, cs, ps, s.id) > 0.0
    ensures |r| <= |subs|
  {
    Filter(subs, (s: Subscription) => Balance(subs, cs, ps, s.id) > 0.0)
  }

  lemma {:induction false} DebtOverZero(items: seq<Subscription>, subs: seq<Subscription>, cs: seq<Currency>, ps: seq<Payment>)
    ensures DebtOver(items, subs, cs, ps) >= 0.0
    ensures DebtOver(items, subs, cs, ps) == 0.0 <==> forall s :: s in items ==> Balance(subs, cs, ps, s.id) == 0.0
    decreases |items|
  {
    if |items| > 0 {
      var init := items[..|items| - 1];
      var last := items[|items| - 1];
      DebtOverZero(init, subs, cs, ps);
      var b := Balance(subs, cs, ps, last.id);
      assert DebtOver(items, subs, cs, ps) == DebtOver(init, subs, cs, ps) + b;
      InitOrLast(items);
      assert (forall s :: s in items ==> Balance(subs, cs, ps, s.id) == 0.0) <==>
             (forall s :: s in init ==> Balance(subs, cs, ps, s.id) == 0.0) && b == 0.0;
    }
  }

  lemma InitOrLast<T>(xs: seq<T>)
    requires |xs| > 0
    ensures forall x :: x in xs <==> x in xs[..|xs| - 1] || x == xs[|xs| - 1]
  {
    assert xs == xs[..|xs| - 1] + [xs[|xs| - 1]];
  }

  /** The total debt is never negative, and it is zero exactly when no subscription is left to pay. */
  lemma NoDebtIffNothingPending(subs: seq<Subscription>, cs: seq<Currency>, ps: seq<Payment>)
    ensures TotalDebt(subs, cs, ps) >= 0.0
    ensures TotalDebt(subs, cs, ps) == 0.0 <==> SubscriptionsWithBalance(subs, cs, ps) == []
  {
    DebtOverZero(subs, subs, cs, ps);
    var pending := SubscriptionsWithBalance(subs, cs, ps);
    if pending != [] {
      assert pending[0] in pending;
    }
  }

  /**
   * Lines 44-56: when confirmed, every payment present at the start is
   * deleted one by one through the store; otherwise nothing happens.
   */
  method RestartCycle(store: Store, confirmed: bool)
    modifies store
    ensures confirmed ==> store.payments == []
    ensures !confirmed ==> store.payments == old(store.payments)
    ensures store.currencies == old(store.currencies) && store.subscriptions == old(store.subscriptions)
    ensures store.selectedCurrency == old(store.selectedCurrency)
  {
    if confirmed {
      var existing := store.payments;
      var i := 0;
      while i < |existing|
        invariant 0 <= i <= |existing|
        invariant store.currencies == old(store.currencies) && store.subscriptions == old(store.subscriptions)
        invariant store.selectedCurrency == old(store.selectedCurrency)
        invariant forall p :: p in store.payments ==> p in existing[i..]
      {
        store.DeletePayment(existing[i].id);
        i := i + 1;
      }
      assert existing[i..] == [];
      NoMemberMeansEmpty(store.payments);
    }
  }

  /**
   * Lines 116-123: "Pay All" records one payment of the whole balance, with
   * the "full" shape; afterwards the subscription owes nothing.
   */
  method PayAll(store: Store, sub: Subscription, newId: string, today: Date)
    modifies store
    ensures store.payments ==
            old(store.payments) + [Payment(newId, sub.id, Balance(old(store.subscriptions), old(store.currencies), old(store.payments), sub.id), today, PaidInFull)]
    ensures store.currencies == old(store.currencies) && store.subscriptions == old(store.subscriptions)
    ensures store.selectedCurrency == old(store.selectedCurrency)
    ensures Balance(store.subscriptions, store.currencies, store.payments, sub.id) == 0.0
  {
    var balance := Balance(store.subscriptions, store.currencies, store.payments, sub.id);
    var payment := Payment(newId, sub.id, balance, today, PaidInFull);
    PayingBalanceClears(store.subscriptions, store.currencies, store.payments, payment);
    store.AddPayment(payment);
  }
}
