/**
 * The records the whole application shares (lib/types.ts), the payment record
 * the payment screens use, and the `find`-by-id lookups every screen repeats.
 */
module Types {

  datatype Option<T> = None | Some(value: T)

  /** A calendar date as an ordered day number; ISO "YYYY-MM-DD" strings order the same way. */
  type Date = int

  /** A currency. `conversionRate` says how many units of it one US dollar buys. */
  datatype Currency = Currency(
    id: string,
    code: string,
    name: string,
    symbol: string,
    conversionRate: real,
    thousandSeparator: string,
    decimalSeparator: string)

  /**
   * A recurring charge. `paymentDay` is a number (1-31 by convention); the
   * import check lets non-integer days through, so it is kept as a real.
   */
  datatype Subscription = Subscription(
    id: string,
    name: string,
    amount: real,
    currencyId: string,
    paymentDay: real,
    hasTax: bool,
    taxRate: real)

  /**
   * The two shapes a payment record takes: the payment dialog stores
   * `isPartial` and `remainingBalance`; "Pay All" stores `type: "full"` and
   * neither of those fields.
   */
  datatype PaymentKind =
    | Installment(isPartial: bool, remainingBalance: real)
    | PaidInFull

  datatype Payment = Payment(
    id: string,
    subscriptionId: string,
    amount: real,
    date: Date,
    kind: PaymentKind)
  {
    /** `payment.isPartial` read as a JavaScript truth value (absent on a "full" record). */
    predicate IsPartial() {
      kind.Installment? && kind.isPartial
    }
  }

  /** The snapshot that import takes and export returns. */
  datatype AppData = AppData(currencies: seq<Currency>, subscriptions: seq<Subscription>)

  /** Every conversion rate can be divided by. */
  predicate NonzeroRates(cs: seq<Currency>) {
    forall c :: c in cs ==> c.conversionRate != 0.0
  }

  /** No two currencies share an id. */
  predicate UniqueIds(cs: seq<Currency>) {
    forall i, j :: 0 <= i < j < |cs| ==> cs[i].id != cs[j].id
  }

  /** The position of the first element passing `hit`, or the length when none does: what `find` scans for. */
  function FirstIndex<T>(xs: seq<T>, hit: T -> bool): (k: nat)
    ensures k <= |xs|
    ensures k < |xs| ==> hit(xs[k])
    ensures forall j :: 0 <= j < k ==> !hit(xs[j])
    decreases |xs|
  {
    if |xs| == 0 || hit(xs[0]) then 0 else 1 + FirstIndex(xs[1..], hit)
  }

  /** `currencies.find((c) => c.id === id)`: the first currency with that id. */
  function FindCurrency(cs: seq<Currency>, id: string): (r: Option<Currency>)
    ensures r.None? <==> forall c :: c in cs ==> c.id != id
    ensures r.Some? ==> r.value in cs && r.value.id == id
    ensures r.Some? ==> exists k :: 0 <= k < |cs| && cs[k] == r.value && r.value.id == id
                                    && forall j :: 0 <= j < k ==> cs[j].id != id
  {
    var k := FirstIndex(cs, (c: Currency) => c.id == id);
    if k < |cs| then Some(cs[k]) else None
  }

  /** `subscriptions.find((s) => s.id === id)`: the first subscription with that id. */
  function FindSubscription(subs: seq<Subscription>, id: string): (r: Option<Subscription>)
    ensures r.None? <==> forall s :: s in subs ==> s.id != id
    ensures r.Some? ==> r.value in subs && r.value.id == id
    ensures r.Some? ==> exists k :: 0 <= k < |subs| && subs[k] == r.value && r.value.id == id
                                    && forall j :: 0 <= j < k ==> subs[j].id != id
  {
    var k := FirstIndex(subs, (s: Subscription) => s.id == id);
    if k < |subs| then Some(subs[k]) else None
  }
}
