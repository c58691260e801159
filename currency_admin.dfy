/**
 * The currency manager (components/currency-manager.tsx): the currency form,
 * adding or updating from it, and deleting with a guard on the last
 * currency.
 *
 * The conversion rate arrives as text and is parsed by the browser, so the
 * parsed number is an input here, and so are the new currency's id, the
 * rate's text when a currency is opened for editing, and the answer to the
 * confirmation dialog.
 */
module CurrencyAdmin {
  import opened Types
  import opened Ledger
  import Formatting

  /** `toUpperCase` on the ASCII letters. */
  function UpperChar(ch: char): char {
    if 'a' <= ch <= 'z' then (ch as int - 32) as char else ch
  }

  /** Line 39: the code as it is stored. */
  function Upper(s: string): (r: string)
    ensures |r| == |s|
    ensures forall i :: 0 <= i < |s| ==> !('a' <= r[i] <= 'z')
    ensures forall i :: 0 <= i < |s| && !('a' <= s[i] <= 'z') ==> r[i] == s[i]
    ensures forall i :: 0 <= i < |s| && 'a' <= s[i] <= 'z' ==> 'A' <= r[i] <= 'Z' && r[i] as int + 32 == s[i] as int
  {
    seq(|s|, i requires 0 <= i < |s| => UpperChar(s[i]))
  }

  /** Uppercasing an uppercased code changes nothing. */
  lemma UpperIdempotent(s: string)
    ensures Upper(Upper(s)) == Upper(s)
  {
  }

  /** The form's fields, all as the inputs hold them (lines 26-33). */
  datatype CurrencyForm = CurrencyForm(
    code: string,
    name: string,
    symbol: string,
    conversionRate: string,
    thousandSeparator: string,
    decimalSeparator: string)

  const EmptyForm: CurrencyForm := CurrencyForm("", "", "", "1", ",", ".")

  /** Lines 38-45: what a submit sends to the store, without an id. */
  function Submitted(form: CurrencyForm, rate: real): (p: CurrencyPatch)
    ensures p.id.None?
    ensures p.code == Some(Upper(form.code))
    ensures p.thousandSeparator == Some(form.thousandSeparator) && p.decimalSeparator == Some(form.decimalSeparator)
  {
    CurrencyPatch(None, Some(Upper(form.code)), Some(form.name), Some(form.symbol), Some(rate),
                  Some(form.thousandSeparator), Some(form.decimalSeparator))
  }

  /** Lines 50-53: the new currency a submit appends. */
  function NewCurrency(form: CurrencyForm, rate: real, newId: string): (c: Currency)
    ensures c.id == newId && MergeCurrency(c, Submitted(form, rate)) == c
  {
    Currency(newId, Upper(form.code), form.name, form.symbol, rate, form.thousandSeparator, form.decimalSeparator)
  }

  /** Opening a currency for editing and submitting the form untouched leaves it as it was. */
  lemma ResubmitUnchanged(c: Currency, rateText: string)
    requires Upper(c.code) == c.code
    ensures MergeCurrency(c, Submitted(CurrencyForm(c.code, c.name, c.symbol, rateText, c.thousandSeparator, c.decimalSeparator),
                                      c.conversionRate)) == c
  {
  }

  /** Lines 197-202: the example line under the form, built from "1234.56". */
  function Preview(form: CurrencyForm): (r: string)
    ensures r == Formatting.FormatCurrency(123456, form.symbol, form.thousandSeparator, form.decimalSeparator)
  {
    Formatting.ExampleAmount(form.symbol, form.thousandSeparator, form.decimalSeparator);
    form.symbol + Formatting.InsertThousands("1234", form.thousandSeparator) + form.decimalSeparator + "56"
  }

  /** The example shows one separator after the thousands digit and two decimals. */
  lemma PreviewLayout(form: CurrencyForm)
    ensures Preview(form) == form.symbol + "1" + form.thousandSeparator + "234" + form.decimalSeparator + "56"
  {
    var d := "1234";
    assert Formatting.AllDigits(d);
    Formatting.InsertThousandsDigits(d, form.thousandSeparator);
    Formatting.GroupFour(d, form.thousandSeparator);
    assert d[..1] == "1" && d[1..] == "234";
    Flatten(form.symbol, "1", form.thousandSeparator, "234", form.decimalSeparator, "56");
  }

  /** Regrouping the concatenation, kept apart so the solver sees it without the formatting context. */
  lemma Flatten(a: string, b: string, c: string, d: string, e: string, f: string)
    ensures a + (b + c + d) + e + f == a + b + c + d + e + f
  {
  }

  /** Line 240: the label a currency's thousand separator gets in the list. */
  function SeparatorLabel(sep: string): (shown: string)
    ensures shown != ""
    ensures sep != "" ==> shown == sep
    ensures sep == "" ==> shown == "ninguno"
  {
    if sep == "" then "ninguno" else sep
  }

  /** The thousand-separator choices offered (lines 172-175). */
  datatype ThousandChoice = Comma | Period | Space | NoSeparator

  /** The value each choice stores, as written: "(ninguno)" stores the text "none". */
  function ThousandValue(choice: ThousandChoice): (v: string)
    ensures v != ""
    ensures |v| == 1 <==> choice != NoSeparator
  {
    match choice
    case Comma => ","
    case Period => "."
    case Space => " "
    case NoSeparator => "none"
  }

  /** The value the list's label (line 240) expects for "(ninguno)": no separator at all. */
  function IntendedThousandValue(choice: ThousandChoice): string {
    if choice == NoSeparator then "" else ThousandValue(choice)
  }

  /** As written, choosing "(ninguno)" puts the word "none" between the digit groups. */
  lemma NoneOptionShowsLiterally()
    ensures Preview(CurrencyForm("USD", "US Dollar", "$", "1", ThousandValue(NoSeparator), ".")) == "$1none234.56"
    ensures Formatting.FormatCurrency(123400, "$", ThousandValue(NoSeparator), ".") == "$1none234.00"
    ensures SeparatorLabel(ThousandValue(NoSeparator)) == "none"
  {
    NonePreview(CurrencyForm("USD", "US Dollar", "$", "1", ThousandValue(NoSeparator), "."));
    NoneGroupsThousands();
  }

  lemma NonePreview(form: CurrencyForm)
    requires form.symbol == "$" && form.thousandSeparator == "none" && form.decimalSeparator == "."
    ensures Preview(form) == "$1none234.56"
  {
    PreviewLayout(form);
    NonePreviewText();
  }

  /** The literal the layout gives for "$", "none" and ".", kept apart from the formatting context. */
  lemma NonePreviewText()
    ensures "$" + "1" + "none" + "234" + "." + "56" == "$1none234.56"
  {
  }

  lemma NoneGroupsThousands()
    ensures Formatting.FormatCurrency(123400, "$", "none", ".") == "$1none234.00"
  {
    Formatting.ExampleDigits();
    NoneGroup();
    ZeroCents();
    NoneAmountText();
  }

  lemma NoneGroup()
    ensures Formatting.GroupDigits("1234", "none") == "1none234"
  {
    Formatting.GroupFour("1234", "none");
    assert "1234"[..1] == "1" && "1234"[1..] == "234";
  }

  lemma ZeroCents()
    ensures Formatting.Abs(123400) / 100 == 1234 && Formatting.FractionText(123400) == "00"
  {
    assert Formatting.Abs(123400) % 100 == 0;
    assert Formatting.DigitChar(0) == '0';
  }

  /** The literal the amount gives, kept apart from the formatting context. */
  lemma NoneAmountText()
    ensures "$" + "" + "1none234" + "." + "00" == "$1none234.00"
  {
  }

  /** With the intended value, "(ninguno)" groups nothing and is labelled "ninguno". */
  lemma IntendedNoneOptionGroupsNothing(cents: int, symbol: string, decimalSeparator: string)
    ensures Formatting.FormatCurrency(cents, symbol, IntendedThousandValue(NoSeparator), decimalSeparator)
         == symbol + (if cents < 0 then "-" else "") + Formatting.NatDigits(Formatting.Abs(cents) / 100)
            + decimalSeparator + Formatting.FractionText(cents)
    ensures SeparatorLabel(IntendedThousandValue(NoSeparator)) == "ninguno"
    ensures forall c :: c != NoSeparator ==> IntendedThousandValue(c) == ThousandValue(c)
  {
    Formatting.EmptySeparatorKeepsDigits(Formatting.NatDigits(Formatting.Abs(cents) / 100));
  }

  /** With distinct ids and at least two currencies, deleting one id leaves at least one currency. */
  lemma DeleteLeavesOne(cs: seq<Currency>, id: string)
    requires UniqueIds(cs) && |cs| >= 2
    ensures |RemoveCurrency(cs, id)| >= 1
  {
    var keep := if cs[0].id != id then cs[0] else cs[1];
    assert keep in RemoveCurrency(cs, id);
  }

  /**
   * The guard needs distinct ids: two currencies sharing an id, which the
   * import check accepts, both go with one delete, leaving none.
   */
  lemma DuplicateIdsCanEmpty(a: Currency, b: Currency)
    requires a.id == b.id
    ensures RemoveCurrency([a, b], a.id) == []
  {
    var r := RemoveCurrency([a, b], a.id);
    assert forall c :: c in [a, b] ==> c.id == a.id;
    NoMemberMeansEmpty(r);
  }

  /** The dialog's state: open or not, the currency being edited, and the form. */
  class CurrencyManager {
    var open: bool
    var editing: Option<Currency>
    var form: CurrencyForm

    constructor()
      ensures !open && editing.None? && form == EmptyForm
    {
      open := false;
      editing := None;
      form := EmptyForm;
    }

    /** Lines 59-62. */
    method ResetForm()
      modifies this
      ensures form == EmptyForm && editing.None? && open == old(open)
    {
      form := EmptyForm;
      editing := None;
    }

    /** Lines 64-75: the form is filled from the currency and the dialog opens. */
    method HandleEdit(c: Currency, rateText: string)
      modifies this
      ensures editing == Some(c) && open
      ensures form == CurrencyForm(c.code, c.name, c.symbol, rateText, c.thousandSeparator, c.decimalSeparator)
    {
      editing := Some(c);
      form := CurrencyForm(c.code, c.name, c.symbol, rateText, c.thousandSeparator, c.decimalSeparator);
      open := true;
    }

    /**
     * Lines 35-57: update the currency being edited, or append a new one;
     * then close the dialog and clear the form.
     */
    method HandleSubmit(store: Store, parsedRate: real, newId: string)
      modifies this, store
      ensures old(editing).Some? ==>
                store.currencies == UpdateCurrencies(old(store.currencies), old(editing).value.id, Submitted(old(form), parsedRate))
      ensures old(editing).None? ==> store.currencies == old(store.currencies) + [NewCurrency(old(form), parsedRate, newId)]
      ensures store.subscriptions == old(store.subscriptions) && store.payments == old(store.payments)
      ensures store.selectedCurrency == old(store.selectedCurrency)
      ensures !open && editing.None? && form == EmptyForm
    {
      if editing.Some? {
        store.UpdateCurrency(editing.value.id, Submitted(form, parsedRate));
      } else {
        store.AddCurrency(NewCurrency(form, parsedRate, newId));
      }
      open := false;
      ResetForm();
    }

    /**
     * Lines 78-86: refuse when exactly one currency is left; otherwise
     * delete only when the user confirms.
     */
    method HandleDelete(store: Store, id: string, confirmed: bool) returns (refused: bool)
      modifies store
      ensures refused <==> |old(store.currencies)| == 1
      ensures refused || !confirmed ==>
                store.currencies == old(store.currencies) && store.subscriptions == old(store.subscriptions)
      ensures !refused && confirmed ==>
                store.currencies == RemoveCurrency(old(store.currencies), id) &&
                store.subscriptions == RemoveSubscriptionsOf(old(store.subscriptions), id)
      ensures UniqueIds(old(store.currencies)) && |old(store.currencies)| >= 1 ==> |store.currencies| >= 1
      ensures store.payments == old(store.payments) && store.selectedCurrency == old(store.selectedCurrency)
    {
      if |store.currencies| == 1 {
        return true;
      }
      refused := false;
      if confirmed {
        if UniqueIds(store.currencies) && |store.currencies| >= 2 {
          DeleteLeavesOne(store.currencies, id);
        }
        store.DeleteCurrency(id);
      }
    }
  }
}
