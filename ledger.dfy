/**
 * The application store (lib/store.ts): the currency and subscription lists,
 * the payment list the payment screens use, the selected display currency,
 * and the mutators that replace those lists.
 */
module Ledger {
  import opened Types

  /** The single currency a fresh store, or an import of no currencies, starts with. */
  const DefaultCurrencies: seq<Currency> := [Currency("1", "USD", "US Dollar", "$", 1.0, ",", ".")]

  /** `Partial<Currency>`: the fields an update carries. */
  datatype CurrencyPatch = CurrencyPatch(
    id: Option<string>,
    code: Option<string>,
    name: Option<string>,
    symbol: Option<string>,
    conversionRate: Option<real>,
    thousandSeparator: Option<string>,
    decimalSeparator: Option<string>)

  /** `Partial<Subscription>`: the fields an update carries. */
  datatype SubscriptionPatch = SubscriptionPatch(
    id: Option<string>,
    name: Option<string>,
    amount: Option<real>,
    currencyId: Option<string>,
    paymentDay: Option<real>,
    hasTax: Option<bool>,
    taxRate: Option<real>)

  function Pick<T>(o: Option<T>, current: T): T {
    if o.Some? then o.value else current
  }

  /** `{ ...c, ...patch }`: a field the patch gives wins; a field it omits keeps its value. */
  function MergeCurrency(c: Currency, p: CurrencyPatch): (r: Currency)
    ensures (p.id.Some? ==> r.id == p.id.value) &&
            (p.code.Some? ==> r.code == p.code.value) &&
            (p.name.Some? ==> r.name == p.name.value) &&
            (p.symbol.Some? ==> r.symbol == p.symbol.value) &&
            (p.conversionRate.Some? ==> r.conversionRate == p.conversionRate.value) &&
            (p.thousandSeparator.Some? ==> r.thousandSeparator == p.thousandSeparator.value) &&
            (p.decimalSeparator.Some? ==> r.decimalSeparator == p.decimalSeparator.value)
    ensures (p.id.None? ==> r.id == c.id) &&
            (p.code.None? ==> r.code == c.code) &&
            (p.name.None? ==> r.name == c.name) &&
            (p.symbol.None? ==> r.symbol == c.symbol) &&
            (p.conversionRate.None? ==> r.conversionRate == c.conversionRate) &&
            (p.thousandSeparator.None? ==> r.thousandSeparator == c.thousandSeparator) &&
            (p.decimalSeparator.None? ==> r.decimalSeparator == c.decimalSeparator)
  {
    Currency(Pick(p.id, c.id), Pick(p.code, c.code), Pick(p.name, c.name), Pick(p.symbol, c.symbol),
             Pick(p.conversionRate, c.conversionRate),
             Pick(p.thousandSeparator, c.thousandSeparator), Pick(p.decimalSeparator, c.decimalSeparator))
  }

  /** `{ ...s, ...patch }`: a field the patch gives wins; a field it omits keeps its value. */
  function MergeSubscription(s: Subscription, p: SubscriptionPatch): (r: Subscription)
    ensures (p.id.Some? ==> r.id == p.id.value) &&
            (p.name.Some? ==> r.name == p.name.value) &&
            (p.amount.Some? ==> r.amount == p.amount.value) &&
            (p.currencyId.Some? ==> r.currencyId == p.currencyId.value) &&
            (p.paymentDay.Some? ==> r.paymentDay == p.paymentDay.value) &&
            (p.hasTax.Some? ==> r.hasTax == p.hasTax.value) &&
            (p.taxRate.Some? ==> r.taxRate == p.taxRate.value)
    ensures (p.id.None? ==> r.id == s.id) &&
            (p.name.None? ==> r.name == s.name) &&
            (p.amount.None? ==> r.amount == s.amount) &&
            (p.currencyId.None? ==> r.currencyId == s.currencyId) &&
            (p.paymentDay.None? ==> r.paymentDay == s.paymentDay) &&
            (p.hasTax.None? ==> r.hasTax == s.hasTax) &&
            (p.taxRate.None? ==> r.taxRate == s.taxRate)
  {
    Subscription(Pick(p.id, s.id), Pick(p.name, s.name), Pick(p.amount, s.amount),
                 Pick(p.currencyId, s.currencyId), Pick(p.paymentDay, s.paymentDay),
                 Pick(p.hasTax, s.hasTax), Pick(p.taxRate, s.taxRate))
  }

  /** `s.filter(keep)`. */
  function Filter<T(!new)>(s: seq<T>, keep: T -> bool): (r: seq<T>)
    ensures forall x :: x in r <==> x in s && keep(x)
    ensures |r| <= |s|
    decreases |s|
  {
    if |s| == 0 then [] else (if keep(s[0]) then [s[0]] else []) + Filter(s[1..], keep)
  }

  /** Filtering works piece by piece, so the survivors keep their relative order. */
  lemma {:induction false} FilterConcat<T(!new)>(a: seq<T>, b: seq<T>, keep: T -> bool)
    ensures Filter(a + b, keep) == Filter(a, keep) + Filter(b, keep)
    decreases |a|
  {
    if |a| == 0 {
      assert a + b == b;
    } else {
      assert (a + b)[0] == a[0] && (a + b)[1..] == a[1..] + b;
      FilterConcat(a[1..], b, keep);
    }
  }

  /** Filtering keeps everything exactly when every element passes. */
  lemma {:induction false} FilterAllKept<T(!new)>(s: seq<T>, keep: T -> bool)
    requires forall x :: x in s ==> keep(x)
    ensures Filter(s, keep) == s
    decreases |s|
  {
    if |s| > 0 {
      HeadAndTail(s);
      FilterAllKept(s[1..], keep);
    }
  }

  /** A non-empty sequence is its first element followed by the rest, which holds nothing new. */
  lemma HeadAndTail<T>(s: seq<T>)
    requires |s| > 0
    ensures s[0] in s && [s[0]] + s[1..] == s
    ensures forall x :: x in s[1..] ==> x in s
  {
  }

  /** `currencies.map((c) => (c.id === id ? { ...c, ...patch } : c))`. */
  function UpdateCurrencies(cs: seq<Currency>, id: string, patch: CurrencyPatch): (r: seq<Currency>)
    ensures |r| == |cs|
    ensures forall i :: 0 <= i < |cs| && cs[i].id != id ==> r[i] == cs[i]
    ensures forall i :: 0 <= i < |cs| && cs[i].id == id ==> r[i] == MergeCurrency(cs[i], patch)
  {
    seq(|cs|, i requires 0 <= i < |cs| => if cs[i].id == id then MergeCurrency(cs[i], patch) else cs[i])
  }

  /** A sequence with no member is empty. */
  lemma NoMemberMeansEmpty<T>(s: seq<T>)
    ensures (forall x :: x !in s) ==> s == []
  {
    if s != [] {
      assert s[0] in s;
    }
  }

  /** `currencies.filter((c) => c.id !== id)`. */
  function RemoveCurrency(cs: seq<Currency>, id: string): (r: seq<Currency>)
    ensures forall c :: c in r <==> c in cs && c.id != id
  {
    Filter(cs, (c: Currency) => c.id != id)
  }

  /** `subscriptions.filter((s) => s.currencyId !== id)`: the cascade of a currency delete. */
  function RemoveSubscriptionsOf(subs: seq<Subscription>, currencyId: string): (r: seq<Subscription>)
    ensures forall s :: s in r <==> s in subs && s.currencyId != currencyId
  {
    Filter(subs, (s: Subscription) => s.currencyId != currencyId)
  }

  /** `subscriptions.map((s) => (s.id === id ? { ...s, ...patch } : s))`. */
  function UpdateSubscriptions(subs: seq<Subscription>, id: string, patch: SubscriptionPatch): (r: seq<Subscription>)
    ensures |r| == |subs|
    ensures forall i :: 0 <= i < |subs| && subs[i].id != id ==> r[i] == subs[i]
    ensures forall i :: 0 <= i < |subs| && subs[i].id == id ==> r[i] == MergeSubscription(subs[i], patch)
  {
    seq(|subs|, i requires 0 <= i < |subs| => if subs[i].id == id then MergeSubscription(subs[i], patch) else subs[i])
  }

  /** `subscriptions.filter((s) => s.id !== id)`. */
  function RemoveSubscription(subs: seq<Subscription>, id: string): (r: seq<Subscription>)
    ensures forall s :: s in r <==> s in subs && s.id != id
  {
    Filter(subs, (s: Subscription) => s.id != id)
  }

  /** `payments.filter((p) => p.id !== id)`. */
  function RemovePayment(ps: seq<Payment>, id: string): (r: seq<Payment>)
    ensures forall p :: p in r <==> p in ps && p.id != id
  {
    Filter(ps, (p: Payment) => p.id != id)
  }

  /** The currency list an import leaves: the imported one, or the default when it is empty. */
  function ImportedCurrencies(cs: seq<Currency>): (r: seq<Currency>)
    ensures |r| >= 1
    ensures |cs| > 0 ==> r == cs
  {
    if |cs| > 0 then cs else DefaultCurrencies
  }

  /** Every subscription names a currency that exists. */
  ghost predicate RefIntegrity(cs: seq<Currency>, subs: seq<Subscription>) {
    forall s :: s in subs ==> exists c :: c in cs && c.id == s.currencyId
  }

  /** The cascade keeps every remaining subscription pointing at a remaining currency. */
  lemma DeleteKeepsIntegrity(cs: seq<Currency>, subs: seq<Subscription>, id: string)
    requires RefIntegrity(cs, subs)
    ensures RefIntegrity(RemoveCurrency(cs, id), RemoveSubscriptionsOf(subs, id))
  {
    var cs', subs' := RemoveCurrency(cs, id), RemoveSubscriptionsOf(subs, id);
    forall s | s in subs' ensures exists c :: c in cs' && c.id == s.currencyId {
      var c :| c in cs && c.id == s.currencyId;
      assert c in cs';
    }
  }

  /** An update that does not touch `id` keeps every reference valid. */
  lemma UpdateKeepsIntegrity(cs: seq<Currency>, subs: seq<Subscription>, id: string, patch: CurrencyPatch)
    requires RefIntegrity(cs, subs) && patch.id.None?
    ensures RefIntegrity(UpdateCurrencies(cs, id, patch), subs)
  {
    var cs' := UpdateCurrencies(cs, id, patch);
    forall s | s in subs ensures exists c :: c in cs' && c.id == s.currencyId {
      var c :| c in cs && c.id == s.currencyId;
      var i :| 0 <= i < |cs| && cs[i] == c;
      assert cs'[i] in cs' && cs'[i].id == c.id;
    }
  }

  /** An update whose id matches nothing changes nothing. */
  lemma UpdateWithoutMatchIsNoOp(cs: seq<Currency>, id: string, patch: CurrencyPatch)
    requires forall c :: c in cs ==> c.id != id
    ensures UpdateCurrencies(cs, id, patch) == cs
  {
    var r := UpdateCurrencies(cs, id, patch);
    assert forall i :: 0 <= i < |cs| ==> r[i] == cs[i];
  }

  /** The store has no last-currency guard: deleting the only currency empties the list. */
  lemma DeleteCanEmptyRegistry(c: Currency)
    ensures RemoveCurrency([c], c.id) == []
  {
    var r := RemoveCurrency([c], c.id);
    assert forall x :: x !in r;
  }

  /** The store (in memory; persistence is not modelled). */
  class Store {
    var currencies: seq<Currency>
    var subscriptions: seq<Subscription>
    var payments: seq<Payment>
    var selectedCurrency: string

    ghost predicate Consistent()
      reads this
    {
      RefIntegrity(currencies, subscriptions)
    }

    constructor ()
      ensures currencies == DefaultCurrencies && subscriptions == [] && payments == []
      ensures selectedCurrency == "1"
      ensures Consistent()
    {
      currencies := DefaultCurrencies;
      subscriptions := [];
      payments := [];
      selectedCurrency := "1";
    }

    method AddCurrency(c: Currency)
      modifies this
      ensures currencies == old(currencies) + [c]
      ensures subscriptions == old(subscriptions) && payments == old(payments)
      ensures selectedCurrency == old(selectedCurrency)
      ensures old(Consistent()) ==> Consistent()
    {
      currencies := currencies + [c];
    }

    method UpdateCurrency(id: string, patch: CurrencyPatch)
      modifies this
      ensures currencies == UpdateCurrencies(old(currencies), id, patch)
      ensures subscriptions == old(subscriptions) && payments == old(payments)
      ensures selectedCurrency == old(selectedCurrency)
      ensures old(Consistent()) && patch.id.None? ==> Consistent()
    {
      if Consistent() && patch.id.None? {
        UpdateKeepsIntegrity(currencies, subscriptions, id, patch);
      }
      currencies := UpdateCurrencies(currencies, id, patch);
    }

    /** Removes the currency and, in the same step, every subscription that uses it. */
    method DeleteCurrency(id: string)
      modifies this
      ensures currencies == RemoveCurrency(old(currencies), id)
      ensures subscriptions == RemoveSubscriptionsOf(old(subscriptions), id)
      ensures payments == old(payments) && selectedCurrency == old(selectedCurrency)
      ensures old(Consistent()) ==> Consistent()
    {
      if Consistent() {
        DeleteKeepsIntegrity(currencies, subscriptions, id);
      }
      currencies, subscriptions := RemoveCurrency(currencies, id), RemoveSubscriptionsOf(subscriptions, id);
    }

    method AddSubscription(s: Subscription)
      modifies this
      ensures subscriptions == old(subscriptions) + [s]
      ensures currencies == old(currencies) && payments == old(payments)
      ensures selectedCurrency == old(selectedCurrency)
      ensures old(Consistent()) && (exists c :: c in currencies && c.id == s.currencyId) ==> Consistent()
    {
      subscriptions := subscriptions + [s];
    }

    method UpdateSubscription(id: string, patch: SubscriptionPatch)
      modifies this
      ensures subscriptions == UpdateSubscriptions(old(subscriptions), id, patch)
      ensures currencies == old(currencies) && payments == old(payments)
      ensures selectedCurrency == old(selectedCurrency)
    {
      subscriptions := UpdateSubscriptions(subscriptions, id, patch);
    }

    method DeleteSubscription(id: string)
      modifies this
      ensures subscriptions == RemoveSubscription(old(subscriptions), id)
      ensures currencies == old(currencies) && payments == old(payments)
      ensures selectedCurrency == old(selectedCurrency)
      ensures old(Consistent()) ==> Consistent()
    {
      subscriptions := RemoveSubscription(subscriptions, id);
    }

    method SetSelectedCurrency(currencyId: string)
      modifies this
      ensures selectedCurrency == currencyId
      ensures currencies == old(currencies) && subscriptions == old(subscriptions) && payments == old(payments)
    {
      selectedCurrency := currencyId;
    }

    method AddPayment(p: Payment)
      modifies this
      ensures payments == old(payments) + [p]
      ensures currencies == old(currencies) && subscriptions == old(subscriptions)
      ensures selectedCurrency == old(selectedCurrency)
    {
      payments := payments + [p];
    }

    method DeletePayment(id: string)
      modifies this
      ensures payments == RemovePayment(old(payments), id)
      ensures currencies == old(currencies) && subscriptions == old(subscriptions)
      ensures selectedCurrency == old(selectedCurrency)
    {
      payments := RemovePayment(payments, id);
    }

    /** Replaces both lists wholesale; an empty currency list becomes the default one. */
    method ImportData(data: AppData)
      modifies this
      ensures currencies == ImportedCurrencies(data.currencies)
      ensures subscriptions == data.subscriptions
      ensures |currencies| >= 1
      ensures payments == old(payments) && selectedCurrency == old(selectedCurrency)
    {
      currencies := ImportedCurrencies(data.currencies);
      subscriptions := data.subscriptions;
    }

    /** A verbatim read of both lists. */
    method ExportData() returns (data: AppData)
      ensures data.currencies == currencies && data.subscriptions == subscriptions
    {
      data := AppData(currencies, subscriptions);
    }
  }

  /** Import, then export: the imported data comes back when it had currencies. */
  method ImportThenExport(store: Store, data: AppData) returns (out: AppData)
    modifies store
    ensures out.subscriptions == data.subscriptions
    ensures |data.currencies| > 0 ==> out == data
    ensures |data.currencies| == 0 ==> out.currencies == DefaultCurrencies
  {
    store.ImportData(data);
    out := store.ExportData();
  }
}
