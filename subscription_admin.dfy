/**
 * The subscription manager (components/subscription-manager.tsx): the
 * subscription form, adding or updating from it, deleting, and the total
 * and amounts the list shows.
 *
 * The form's number fields are parsed by the browser, so the parsed amount,
 * day and tax rate are inputs here, and so are the new subscription's id,
 * the texts a subscription's numbers are written back into the form as, and
 * the answer to the confirmation dialog.
 */
module SubscriptionAdmin {
  import opened Types
  import opened Ledger
  import Text
  import Formatting
  import MonthlySummary

  /** Lines 95-99: the base amount plus the tax on it. */
  function CalculateTotal(s: Subscription): (t: real)
    ensures !s.hasTax ==> t == s.amount
    ensures s.hasTax ==> t - s.amount == s.amount * (s.taxRate / 100.0)
  {
    var baseAmount := s.amount;
    var taxAmount := if s.hasTax then baseAmount * (s.taxRate / 100.0) else 0.0;
    baseAmount + taxAmount
  }

  /** The list's total and the summary card's charge are the same amount. */
  lemma TotalAgreesWithSummary(s: Subscription)
    ensures CalculateTotal(s) == MonthlySummary.SubTotal(s)
  {
    if s.hasTax {
      assert s.amount * (1.0 + s.taxRate / 100.0) == s.amount + s.amount * (s.taxRate / 100.0);
    }
  }

  /** With a non-negative amount and tax rate the total is never below the base amount. */
  lemma TotalAtLeastAmount(s: Subscription)
    requires s.amount >= 0.0 && s.taxRate >= 0.0
    ensures CalculateTotal(s) >= s.amount
  {
    if s.hasTax {
      assert s.taxRate / 100.0 >= 0.0;
      assert s.amount * (s.taxRate / 100.0) >= 0.0;
    }
  }

  /** Lines 101-106: plain two-decimal text without a currency, the currency's layout with one. */
  function FormatAmount(cents: int, currency: Option<Currency>): (r: string)
    ensures currency.None? ==> r == Formatting.ToFixed2(cents)
    ensures currency.Some? ==>
              r == Formatting.FormatCurrency(cents, currency.value.symbol, currency.value.thousandSeparator, currency.value.decimalSeparator)
  {
    if currency.None? then Formatting.ToFixed2(cents)
    else
      var parts := Text.Split(Formatting.ToFixed2(cents), '.');
      Formatting.FixedParts(cents);
      var integerPart := Formatting.InsertThousands(parts[0], currency.value.thousandSeparator);
      currency.value.symbol + integerPart + currency.value.decimalSeparator + parts[1]
  }

  /** The form's fields as the inputs hold them (lines 26-33). */
  datatype SubscriptionForm = SubscriptionForm(
    name: string,
    amount: string,
    currencyId: string,
    paymentDay: string,
    hasTax: bool,
    taxRate: string)

  /** Lines 60-68: a blank form set to the first currency, if any. */
  function BlankForm(cs: seq<Currency>): (f: SubscriptionForm)
    ensures |cs| == 0 ==> f.currencyId == ""
    ensures |cs| > 0 ==> f.currencyId == cs[0].id
    ensures !f.hasTax && f.paymentDay == "1" && f.taxRate == "0" && f.name == "" && f.amount == ""
  {
    SubscriptionForm("", "", if |cs| > 0 then cs[0].id else "", "1", false, "0")
  }

  /** Lines 38-45: what a submit sends to the store, without an id; no tax means a rate of 0. */
  function Submitted(form: SubscriptionForm, amount: real, day: int, taxRate: real): (p: SubscriptionPatch)
    ensures p.id.None? && p.hasTax == Some(form.hasTax)
    ensures !form.hasTax ==> p.taxRate == Some(0.0)
    ensures form.hasTax ==> p.taxRate == Some(taxRate)
  {
    SubscriptionPatch(None, Some(form.name), Some(amount), Some(form.currencyId), Some(day as real),
                      Some(form.hasTax), Some(if form.hasTax then taxRate else 0.0))
  }

  /** Lines 50-53: the new subscription a submit appends. */
  function NewSubscription(form: SubscriptionForm, amount: real, day: int, taxRate: real, newId: string): (s: Subscription)
    ensures s.id == newId && MergeSubscription(s, Submitted(form, amount, day, taxRate)) == s
  {
    Subscription(newId, form.name, amount, form.currencyId, day as real, form.hasTax,
                 if form.hasTax then taxRate else 0.0)
  }

  /** A subscription saved without tax is charged its bare amount everywhere, whatever rate was typed. */
  lemma SavedWithoutTaxChargesAmount(form: SubscriptionForm, amount: real, day: int, taxRate: real, newId: string)
    requires !form.hasTax
    ensures var s := NewSubscription(form, amount, day, taxRate, newId);
            s.taxRate == 0.0 && CalculateTotal(s) == amount && MonthlySummary.SubTotal(s) == amount
  {
  }

  /** The dialog's state: open or not, the subscription being edited, and the form. */
  class SubscriptionManager {
    var open: bool
    var editing: Option<Subscription>
    var form: SubscriptionForm

    constructor(cs: seq<Currency>)
      ensures !open && editing.None? && form == BlankForm(cs)
    {
      open := false;
      editing := None;
      form := BlankForm(cs);
    }

    /** Lines 60-70. */
    method ResetForm(cs: seq<Currency>)
      modifies this
      ensures form == BlankForm(cs) && editing.None? && open == old(open)
    {
      form := BlankForm(cs);
      editing := None;
    }

    /** Lines 72-83: the form is filled from the subscription; a rate only shows when it is taxed. */
    method HandleEdit(s: Subscription, amountText: string, dayText: string, rateText: string)
      modifies this
      ensures editing == Some(s) && open
      ensures form == SubscriptionForm(s.name, amountText, s.currencyId, dayText, s.hasTax, if s.hasTax then rateText else "0")
    {
      editing := Some(s);
      form := SubscriptionForm(s.name, amountText, s.currencyId, dayText, s.hasTax, if s.hasTax then rateText else "0");
      open := true;
    }

    /**
     * Lines 35-58: update the subscription being edited, or append a new
     * one; then close the dialog and reset the form to the first currency.
     */
    method HandleSubmit(store: Store, amount: real, day: int, taxRate: real, newId: string)
      modifies this, store
      ensures old(editing).Some? ==>
                store.subscriptions ==
                UpdateSubscriptions(old(store.subscriptions), old(editing).value.id, Submitted(old(form), amount, day, taxRate))
      ensures old(editing).None? ==>
                store.subscriptions == old(store.subscriptions) + [NewSubscription(old(form), amount, day, taxRate, newId)]
      ensures store.currencies == old(store.currencies) && store.payments == old(store.payments)
      ensures store.selectedCurrency == old(store.selectedCurrency)
      ensures !open && editing.None? && form == BlankForm(store.currencies)
    {
      if editing.Some? {
        store.UpdateSubscription(editing.value.id, Submitted(form, amount, day, taxRate));
      } else {
        store.AddSubscription(NewSubscription(form, amount, day, taxRate, newId));
      }
      open := false;
      ResetForm(store.currencies);
    }

    /** Lines 85-89: delete only when the user confirms. */
    method HandleDelete(store: Store, id: string, confirmed: bool)
      modifies store
      ensures confirmed ==> store.subscriptions == RemoveSubscription(old(store.subscriptions), id)
      ensures !confirmed ==> store.subscriptions == old(store.subscriptions)
      ensures store.currencies == old(store.currencies) && store.payments == old(store.payments)
      ensures store.selectedCurrency == old(store.selectedCurrency)
    {
      if confirmed {
        store.DeleteSubscription(id);
      }
    }
  }
}
