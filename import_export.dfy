/**
 * Importing a backup (components/data-manager.tsx): the checks run on a
 * parsed snapshot before it replaces the store, and the message shown when
 * one fails.
 *
 * The snapshot is modelled after parsing: a field the checks test is an
 * `Option`. A number field is `None` when it is missing or not a number.
 * A text field is `None` when it is missing or a falsy value of another
 * type (`null`, `0`, `false`); a truthy value of another type, such as the
 * number 5, is carried as some non-empty text. JavaScript's `!value` then
 * fails exactly on `None` and on "". Fields the checks do not look at are
 * carried through as they are. A snapshot or record that is `null` has no
 * `RawData` form: the check reading its field throws, as `CheckThrew` says.
 */
module ImportExport {
  import opened Types
  import opened Ledger

  datatype RawCurrency = RawCurrency(
    id: Option<string>,
    code: Option<string>,
    name: Option<string>,
    symbol: Option<string>,
    conversionRate: Option<real>,
    thousandSeparator: string,
    decimalSeparator: string)

  datatype RawSubscription = RawSubscription(
    id: Option<string>,
    name: Option<string>,
    amount: Option<real>,
    currencyId: Option<string>,
    paymentDay: Option<real>,
    hasTax: bool,
    taxRate: real)

  /** `None` for a list that is missing or not an array. */
  datatype RawData = RawData(currencies: Option<seq<RawCurrency>>, subscriptions: Option<seq<RawSubscription>>)

  /** The checks, in the order they run (lines 66-94). */
  datatype ImportError =
    | MissingCurrencies
    | MissingSubscriptions
    | InvalidCurrency
    | InvalidRate
    | InvalidSubscription
    | InvalidAmount
    | InvalidPaymentDay

  /** The opening both structure checks' messages share. */
  const MissingArray: string := "Formato inválido: falta el array de "

  /**
   * The message each failed check raises: the two structure checks both
   * report a missing array.
   */
  function Message(e: ImportError): (m: string)
    ensures m != ""
    ensures e.MissingCurrencies? || e.MissingSubscriptions? ==> MissingArray <= m
  {
    match e
    case MissingCurrencies => MissingArray + "monedas"
    case MissingSubscriptions => MissingArray + "suscripciones"
    case InvalidCurrency => "Formato de moneda inválido"
    case InvalidRate => "Tasa de conversión inválida"
    case InvalidSubscription => "Formato de suscripción inválido"
    case InvalidAmount => "Monto de suscripción inválido"
    case InvalidPaymentDay => "Día de pago inválido"
  }

  /** Different failed checks show different messages. */
  lemma MessagesIdentifyTheCheck(e1: ImportError, e2: ImportError)
    requires e1 != e2
    ensures Message(e1) != Message(e2)
  {
    LengthOfMessage(e1);
    LengthOfMessage(e2);
    LengthsDiffer(e1, e2);
  }

  /** The messages have seven different lengths. */
  function MessageLength(e: ImportError): nat {
    match e
    case MissingCurrencies => 43
    case MissingSubscriptions => 49
    case InvalidCurrency => 26
    case InvalidRate => 27
    case InvalidSubscription => 31
    case InvalidAmount => 29
    case InvalidPaymentDay => 20
  }

  lemma LengthOfMessage(e: ImportError)
    ensures |Message(e)| == MessageLength(e)
  {
    match e
    case MissingCurrencies =>
    case MissingSubscriptions =>
    case InvalidCurrency =>
    case InvalidRate =>
    case InvalidSubscription =>
    case InvalidAmount =>
    case InvalidPaymentDay =>
  }

  /** Seven constructors, seven lengths. */
  lemma LengthsDiffer(e1: ImportError, e2: ImportError)
    requires e1 != e2
    ensures MessageLength(e1) != MessageLength(e2)
  {
  }

  /** A text field that JavaScript would find truthy. */
  predicate Present(s: Option<string>) {
    s.Some? && s.value != ""
  }

  /** Lines 74-80: the two checks on one currency. */
  function CurrencyError(c: RawCurrency): (r: Option<ImportError>)
    ensures r.None? <==> GoodCurrency(c)
    ensures r.Some? ==> r == Some(InvalidCurrency) || r == Some(InvalidRate)
    ensures r == Some(InvalidCurrency) <==> !(Present(c.id) && Present(c.code) && Present(c.name) && Present(c.symbol))
    ensures r == Some(InvalidRate) <==>
              Present(c.id) && Present(c.code) && Present(c.name) && Present(c.symbol) &&
              (c.conversionRate.None? || c.conversionRate.value <= 0.0)
  {
    if !Present(c.id) || !Present(c.code) || !Present(c.name) || !Present(c.symbol) then Some(InvalidCurrency)
    else if c.conversionRate.None? || c.conversionRate.value <= 0.0 then Some(InvalidRate)
    else None
  }

  /** Lines 84-93: the three checks on one subscription. */
  function SubscriptionError(s: RawSubscription): (r: Option<ImportError>)
    ensures r.None? <==> GoodSubscription(s)
    ensures r.Some? ==> r == Some(InvalidSubscription) || r == Some(InvalidAmount) || r == Some(InvalidPaymentDay)
    ensures r == Some(InvalidSubscription) <==> !(Present(s.id) && Present(s.name) && Present(s.currencyId))
    ensures r == Some(InvalidAmount) <==>
              Present(s.id) && Present(s.name) && Present(s.currencyId) &&
              (s.amount.None? || s.amount.value < 0.0)
    ensures r == Some(InvalidPaymentDay) <==>
              Present(s.id) && Present(s.name) && Present(s.currencyId) &&
              s.amount.Some? && s.amount.value >= 0.0 &&
              (s.paymentDay.None? || s.paymentDay.value < 1.0 || s.paymentDay.value > 31.0)
  {
    if !Present(s.id) || !Present(s.name) || !Present(s.currencyId) then Some(InvalidSubscription)
    else if s.amount.None? || s.amount.value < 0.0 then Some(InvalidAmount)
    else if s.paymentDay.None? || s.paymentDay.value < 1.0 || s.paymentDay.value > 31.0 then Some(InvalidPaymentDay)
    else None
  }

  /** The error of the first element that has one: the loop stops at the first `throw`. */
  function FirstError<T>(xs: seq<T>, check: T -> Option<ImportError>): (r: Option<ImportError>)
    ensures r.None? <==> forall i :: 0 <= i < |xs| ==> check(xs[i]).None?
    decreases |xs|
  {
    if |xs| == 0 then None
    else if check(xs[0]).Some? then check(xs[0])
    else
      var r := FirstError(xs[1..], check);
      assert forall i :: 1 <= i < |xs| ==> xs[i] == xs[1..][i - 1];
      r
  }

  /** The reported error belongs to an element, and every element before it passed. */
  lemma {:induction false} FirstErrorIsFirst<T>(xs: seq<T>, check: T -> Option<ImportError>)
    requires FirstError(xs, check).Some?
    ensures exists i :: 0 <= i < |xs| && check(xs[i]) == FirstError(xs, check) &&
                        forall j :: 0 <= j < i ==> check(xs[j]).None?
    decreases |xs|
  {
    if check(xs[0]).None? {
      FirstErrorIsFirst(xs[1..], check);
      var i :| 0 <= i < |xs[1..]| && check(xs[1..][i]) == FirstError(xs[1..], check) &&
               forall j :: 0 <= j < i ==> check(xs[1..][j]).None?;
      assert check(xs[i + 1]) == FirstError(xs, check);
      assert forall j :: 0 <= j < i + 1 ==> check(xs[j]).None? by {
        forall j | 0 <= j < i + 1 ensures check(xs[j]).None? {
          if j > 0 {
            assert xs[j] == xs[1..][j - 1];
          }
        }
      }
    }
  }

  /** Lines 66-94: the error the import stops at, if any. */
  function ValidationError(d: RawData): (r: Option<ImportError>)
    ensures d.currencies.None? ==> r == Some(MissingCurrencies)
    ensures d.currencies.Some? && d.subscriptions.None? ==> r == Some(MissingSubscriptions)
    ensures d.currencies.Some? && d.subscriptions.Some? ==>
              (r.None? <==> (forall i :: 0 <= i < |d.currencies.value| ==> CurrencyError(d.currencies.value[i]).None?) &&
                            (forall i :: 0 <= i < |d.subscriptions.value| ==> SubscriptionError(d.subscriptions.value[i]).None?))
  {
    if d.currencies.None? then Some(MissingCurrencies)
    else if d.subscriptions.None? then Some(MissingSubscriptions)
    else
      var e := FirstError(d.currencies.value, CurrencyError);
      if e.Some? then e else FirstError(d.subscriptions.value, SubscriptionError)
  }

  /** A currency every check accepts, stated field by field. */
  predicate GoodCurrency(c: RawCurrency) {
    c.id.Some? && c.id.value != "" && c.code.Some? && c.code.value != "" &&
    c.name.Some? && c.name.value != "" && c.symbol.Some? && c.symbol.value != "" &&
    c.conversionRate.Some? && c.conversionRate.value > 0.0
  }

  /** A subscription every check accepts, stated field by field. */
  predicate GoodSubscription(s: RawSubscription) {
    s.id.Some? && s.id.value != "" && s.name.Some? && s.name.value != "" &&
    s.currencyId.Some? && s.currencyId.value != "" &&
    s.amount.Some? && s.amount.value >= 0.0 &&
    s.paymentDay.Some? && 1.0 <= s.paymentDay.value <= 31.0
  }

  /** Both lists present and every record well formed. */
  predicate Acceptable(d: RawData) {
    d.currencies.Some? && d.subscriptions.Some? &&
    (forall i :: 0 <= i < |d.currencies.value| ==> GoodCurrency(d.currencies.value[i])) &&
    (forall i :: 0 <= i < |d.subscriptions.value| ==> GoodSubscription(d.subscriptions.value[i]))
  }

  /** The import goes through exactly when every check passes. */
  lemma AcceptedIffAcceptable(d: RawData)
    ensures ValidationError(d).None? <==> Acceptable(d)
  {
    if d.currencies.Some? && d.subscriptions.Some? {
      var cs, subs := d.currencies.value, d.subscriptions.value;
      assert forall i :: 0 <= i < |cs| ==> (CurrencyError(cs[i]).None? <==> GoodCurrency(cs[i]));
      assert forall i :: 0 <= i < |subs| ==> (SubscriptionError(subs[i]).None? <==> GoodSubscription(subs[i]));
    }
  }

  /** A bad currency is reported whatever the subscriptions hold: currencies are checked first. */
  lemma CurrencyErrorsFirst(d: RawData, c: RawCurrency)
    requires d.currencies.Some? && d.subscriptions.Some?
    requires c in d.currencies.value && CurrencyError(c).Some?
    ensures ValidationError(d) == Some(InvalidCurrency) || ValidationError(d) == Some(InvalidRate)
  {
    var cs := d.currencies.value;
    FirstErrorIsFirst(cs, CurrencyError);
  }

  /** The checks do not ask a subscription's currency to be among the imported ones. */
  lemma CrossReferenceNotChecked()
    ensures var d := RawData(
              Some([RawCurrency(Some("1"), Some("USD"), Some("Dólar"), Some("$"), Some(1.0), ",", ".")]),
              Some([RawSubscription(Some("s"), Some("Radio"), Some(5.0), Some("9"), Some(3.0), false, 0.0)]));
            ValidationError(d).None? && d.subscriptions.value[0].currencyId.value != d.currencies.value[0].id.value
  {
    var c := RawCurrency(Some("1"), Some("USD"), Some("Dólar"), Some("$"), Some(1.0), ",", ".");
    var s := RawSubscription(Some("s"), Some("Radio"), Some(5.0), Some("9"), Some(3.0), false, 0.0);
    assert FirstError([c], CurrencyError) == None by {
      assert [c][1..] == [];
    }
    assert FirstError([s], SubscriptionError) == None by {
      assert [s][1..] == [];
    }
  }

  /** A day in range passes even when it is not a whole number. */
  lemma FractionalDayAccepted(s: RawSubscription)
    requires GoodSubscription(s)
    ensures SubscriptionError(s.(paymentDay := Some(15.5))).None?
  {
  }

  /** The records an accepted snapshot becomes in the store (line 97). */
  function ToAppData(d: RawData): (r: AppData)
    requires Acceptable(d)
    ensures |r.currencies| == |d.currencies.value| && |r.subscriptions| == |d.subscriptions.value|
    ensures forall i :: 0 <= i < |r.currencies| ==> r.currencies[i].id == d.currencies.value[i].id.value
    ensures forall i :: 0 <= i < |r.subscriptions| ==>
              r.subscriptions[i].id == d.subscriptions.value[i].id.value &&
              1.0 <= r.subscriptions[i].paymentDay <= 31.0 && r.subscriptions[i].amount >= 0.0
    ensures forall c :: c in r.currencies ==> c.conversionRate > 0.0
  {
    var cs := d.currencies.value;
    var subs := d.subscriptions.value;
    AppData(
      seq(|cs|, i requires 0 <= i < |cs| =>
        assert GoodCurrency(cs[i]);
        Currency(cs[i].id.value, cs[i].code.value, cs[i].name.value, cs[i].symbol.value,
                 cs[i].conversionRate.value, cs[i].thousandSeparator, cs[i].decimalSeparator)),
      seq(|subs|, i requires 0 <= i < |subs| =>
        assert GoodSubscription(subs[i]);
        Subscription(subs[i].id.value, subs[i].name.value, subs[i].amount.value, subs[i].currencyId.value,
                     subs[i].paymentDay.value, subs[i].hasTax, subs[i].taxRate)))
  }

  /** Lines 66-94 as they run: two presence checks, then two loops that stop at the first bad record. */
  method Validate(d: RawData) returns (err: Option<ImportError>)
    ensures err == ValidationError(d)
  {
    if d.currencies.None? {
      return Some(MissingCurrencies);
    }
    if d.subscriptions.None? {
      return Some(MissingSubscriptions);
    }
    var cs := d.currencies.value;
    var i := 0;
    while i < |cs|
      invariant 0 <= i <= |cs|
      invariant FirstError(cs, CurrencyError) == FirstError(cs[i..], CurrencyError)
    {
      var currency := cs[i];
      if !Present(currency.id) || !Present(currency.code) || !Present(currency.name) || !Present(currency.symbol) {
        return Some(InvalidCurrency);
      }
      if currency.conversionRate.None? || currency.conversionRate.value <= 0.0 {
        return Some(InvalidRate);
      }
      assert cs[i..][1..] == cs[i + 1..];
      i := i + 1;
    }
    var subs := d.subscriptions.value;
    var j := 0;
    while j < |subs|
      invariant 0 <= j <= |subs|
      invariant FirstError(subs, SubscriptionError) == FirstError(subs[j..], SubscriptionError)
    {
      var sub := subs[j];
      if !Present(sub.id) || !Present(sub.name) || !Present(sub.currencyId) {
        return Some(InvalidSubscription);
      }
      if sub.amount.None? || sub.amount.value < 0.0 {
        return Some(InvalidAmount);
      }
      if sub.paymentDay.None? || sub.paymentDay.value < 1.0 || sub.paymentDay.value > 31.0 {
        return Some(InvalidPaymentDay);
      }
      assert subs[j..][1..] == subs[j + 1..];
      j := j + 1;
    }
    return None;
  }

  /**
   * What the file picker, the reader and the parser deliver (lines 54-63),
   * and `CheckThrew` for a parsed snapshot on which a check reads a field
   * of `null` (the snapshot itself at line 66, a currency at line 75, a
   * subscription at line 85) before any check fails: JavaScript throws a
   * TypeError whose message is given.
   */
  datatype FileResult =
    | NoFile
    | ReadFailed
    | Unparsable(parseMessage: string)
    | CheckThrew(runtimeMessage: string)
    | Parsed(data: RawData)

  /** The import dialog's state. */
  class DataManager {
    var importOpen: bool
    var importError: Option<string>

    constructor()
      ensures !importOpen && importError.None?
    {
      importOpen := false;
      importError := None;
    }

    /**
     * Lines 53-116: with no file nothing happens; otherwise the error is
     * cleared, and either the store is replaced and the dialog closed, or
     * the store is left alone and the failure's message shown.
     */
    method HandleImport(store: Store, file: FileResult)
      modifies this, store
      ensures file.NoFile? ==> importError == old(importError) && importOpen == old(importOpen)
      ensures file.ReadFailed? ==> importError == Some("Error al leer el archivo")
      ensures file.Unparsable? ==> importError == Some(file.parseMessage)
      ensures file.CheckThrew? ==> importError == Some(file.runtimeMessage)
      ensures file.Parsed? && ValidationError(file.data).Some? ==>
                importError == Some(Message(ValidationError(file.data).value))
      ensures file.Parsed? && ValidationError(file.data).None? ==>
                Acceptable(file.data) && importError.None? && !importOpen &&
                store.currencies == ImportedCurrencies(ToAppData(file.data).currencies) &&
                store.subscriptions == ToAppData(file.data).subscriptions
      ensures !(file.Parsed? && ValidationError(file.data).None?) ==>
                store.currencies == old(store.currencies) && store.subscriptions == old(store.subscriptions) &&
                importOpen == old(importOpen)
      ensures store.payments == old(store.payments) && store.selectedCurrency == old(store.selectedCurrency)
    {
      if file.NoFile? {
        return;
      }
      importError := None;
      match file
      case ReadFailed =>
        importError := Some("Error al leer el archivo");
      case Unparsable(message) =>
        importError := Some(message);
      case CheckThrew(message) =>
        importError := Some(message);
      case Parsed(data) =>
        var err := Validate(data);
        if err.Some? {
          importError := Some(Message(err.value));
        } else {
          AcceptedIffAcceptable(data);
          store.ImportData(ToAppData(data));
          importOpen := false;
        }
    }
  }
}
