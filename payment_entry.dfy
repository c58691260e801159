/**
 * The payment dialog (components/payment-modal.tsx): the amount and date
 * the user types, the guards on the amount, and the payment recorded when
 * they pass.
 *
 * The amount as parsed from the typed text is an input, since the parser
 * lives outside this model; so is the date a well-formed "dd/mm/yyyy"
 * entry denotes, and so are the new payment's id and today's date.
 */
module PaymentEntry {
  import opened Types
  import opened Ledger
  import Text
  import PaymentPage

  /** Why a payment is refused: the three error toasts. */
  datatype Rejection = EmptyAmount | NotPositive | ExceedsBalance

  datatype Outcome = Rejected(reason: Rejection) | Recorded(payment: Payment)

  /** Lines 48-91: the guards in order, then the payment to record. */
  function Entry(display: string, amount: real, balance: real, subscriptionId: string, newId: string, date: Date): (r: Outcome)
    ensures r.Recorded? <==> display != "" && 0.0 < amount <= balance
    ensures display == "" ==> r == Rejected(EmptyAmount)
    ensures display != "" && amount <= 0.0 ==> r == Rejected(NotPositive)
    ensures display != "" && 0.0 < amount && amount > balance ==> r == Rejected(ExceedsBalance)
    ensures r.Recorded? ==>
              r.payment.id == newId && r.payment.subscriptionId == subscriptionId &&
              r.payment.amount == amount && r.payment.date == date && r.payment.kind.Installment?
    ensures r.Recorded? ==>
              r.payment.kind.remainingBalance >= 0.0 &&
              r.payment.amount + r.payment.kind.remainingBalance == balance &&
              (r.payment.IsPartial() <==> r.payment.kind.remainingBalance > 0.0)
    ensures r.Recorded? && amount == balance ==> !r.payment.IsPartial()
  {
    if display == "" then Rejected(EmptyAmount)
    else if amount <= 0.0 then Rejected(NotPositive)
    else if amount > balance then Rejected(ExceedsBalance)
    else
      var remaining := balance - amount;
      Recorded(Payment(newId, subscriptionId, amount, date, Installment(remaining > 0.0, remaining)))
  }

  /** `parts.length !== 3` (line 42) holds exactly when the entry does not contain two slashes. */
  lemma DateGuardCountsSlashes(text: string)
    ensures |Text.Split(text, '/')| != 3 <==> Text.Count(text, '/') != 2
  {
    Text.SplitCount(text, '/');
  }

  /**
   * When the dialog is opened on the page's balance, a recorded payment in
   * whole cents stores as its remaining balance exactly what the page then
   * shows as the subscription's balance.
   */
  lemma RemainderMatchesPage(subs: seq<Subscription>, cs: seq<Currency>, ps: seq<Payment>, subscriptionId: string,
                             display: string, cents: int, newId: string, date: Date)
    requires Entry(display, cents as real / 100.0, PaymentPage.Balance(subs, cs, ps, subscriptionId), subscriptionId, newId, date).Recorded?
    ensures var p := Entry(display, cents as real / 100.0, PaymentPage.Balance(subs, cs, ps, subscriptionId), subscriptionId, newId, date).payment;
            PaymentPage.Balance(subs, cs, ps + [p], subscriptionId) == p.kind.remainingBalance
  {
    var p := Entry(display, cents as real / 100.0, PaymentPage.Balance(subs, cs, ps, subscriptionId), subscriptionId, newId, date).payment;
    PaymentPage.PaymentLowersBalance(subs, cs, ps, p, cents);
  }

  /** The dialog's state for one subscription and the balance it was opened with. */
  class PaymentModal {
    const subscription: Subscription
    const balance: real
    var paymentAmount: string
    var paymentDate: Date
    var paymentAmountDisplay: string

    /** Lines 26-28: empty amount fields and today's date. */
    constructor(subscription: Subscription, balance: real, today: Date)
      ensures this.subscription == subscription && this.balance == balance
      ensures paymentAmount == "" && paymentDate == today && paymentAmountDisplay == ""
    {
      this.subscription := subscription;
      this.balance := balance;
      paymentAmount := "";
      paymentDate := today;
      paymentAmountDisplay := "";
    }

    /** Line 140: the amount field keeps exactly what was typed. */
    method OnAmountInput(text: string)
      modifies this
      ensures paymentAmountDisplay == text
      ensures paymentAmount == old(paymentAmount) && paymentDate == old(paymentDate)
    {
      paymentAmountDisplay := text;
    }

    /**
     * Lines 40-46 and 125-128: an entry that does not split into three
     * '/'-separated parts keeps the stored date. Three parts that denote a
     * date (`denoted`, `None` when they denote none) replace it; three parts
     * that denote no date make `toISOString` throw before `setPaymentDate`
     * runs, so the stored date stays.
     */
    method OnDateInput(text: string, denoted: Option<Date>)
      modifies this
      ensures |Text.Split(text, '/')| != 3 ==> paymentDate == old(paymentDate)
      ensures |Text.Split(text, '/')| == 3 && denoted.Some? ==> paymentDate == denoted.value
      ensures |Text.Split(text, '/')| == 3 && denoted.None? ==> paymentDate == old(paymentDate)
      ensures paymentAmount == old(paymentAmount) && paymentAmountDisplay == old(paymentAmountDisplay)
    {
      var parts := Text.Split(text, '/');
      if |parts| == 3 {
        match denoted
        case None =>
        case Some(date) =>
          paymentDate := date;
      }
    }

    /**
     * Lines 48-103: refuse an empty, non-positive or too large amount and
     * leave everything as it was; otherwise append one payment to the store
     * and reset the form.
     */
    method HandlePayment(store: Store, amount: real, newId: string, today: Date) returns (outcome: Outcome)
      modifies this, store
      ensures outcome == Entry(old(paymentAmountDisplay), amount, balance, subscription.id, newId, old(paymentDate))
      ensures outcome.Rejected? ==> store.payments == old(store.payments)
      ensures outcome.Rejected? ==>
                paymentAmount == old(paymentAmount) && paymentDate == old(paymentDate) &&
                paymentAmountDisplay == old(paymentAmountDisplay)
      ensures outcome.Recorded? ==> store.payments == old(store.payments) + [outcome.payment]
      ensures outcome.Recorded? ==> paymentAmount == "" && paymentDate == today && paymentAmountDisplay == ""
      ensures store.currencies == old(store.currencies) && store.subscriptions == old(store.subscriptions)
      ensures store.selectedCurrency == old(store.selectedCurrency)
    {
      if paymentAmountDisplay == "" {
        return Rejected(EmptyAmount);
      }
      if amount <= 0.0 {
        return Rejected(NotPositive);
      }
      if amount > balance {
        return Rejected(ExceedsBalance);
      }
      var remainingBalance := balance - amount;
      var isPartial := remainingBalance > 0.0;
      var payment := Payment(newId, subscription.id, amount, paymentDate, Installment(isPartial, remainingBalance));
      store.AddPayment(payment);
      outcome := Recorded(payment);
      paymentAmount := "";
      paymentDate := today;
      paymentAmountDisplay := "";
    }
  }
}
