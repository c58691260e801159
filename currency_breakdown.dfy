/**
 * The "breakdown by currency" section of the summary card
 * (components/subscription-summary.tsx, lines 176-187): one row per
 * currency that has subscriptions, with their count, their total in that
 * currency and that total shown in the display currency.
 */
module CurrencyBreakdown {
  import opened Types
  import opened MonthlySummary

  /** `subscriptions.filter((s) => s.currencyId === id)`. */
  function SubsIn(subs: seq<Subscription>, id: string): (r: seq<Subscription>)
    ensures forall s :: s in r <==> s in subs && s.currencyId == id
    ensures |r| <= |subs|
    decreases |subs|
  {
    if |subs| == 0 then []
    else
      var last := subs[|subs| - 1];
      assert forall s :: s in subs <==> s in subs[..|subs| - 1] || s == last;
      SubsIn(subs[..|subs| - 1], id) + (if last.currencyId == id then [last] else [])
  }

  /** Sum of the charges including tax, in their own currency (the `reduce` at line 180). */
  function OwnTotal(subs: seq<Subscription>): real
    decreases |subs|
  {
    if |subs| == 0 then 0.0 else OwnTotal(subs[..|subs| - 1]) + SubTotal(subs[|subs| - 1])
  }

  /** Charges with non-negative amounts and tax rates never make a currency's total negative. */
  lemma {:induction false} OwnTotalNonNegative(subs: seq<Subscription>)
    requires forall s :: s in subs ==> s.amount >= 0.0 && s.taxRate >= 0.0
    ensures OwnTotal(subs) >= 0.0
    decreases |subs|
  {
    if |subs| > 0 {
      var last := subs[|subs| - 1];
      assert last in subs;
      assert forall s :: s in subs[..|subs| - 1] ==> s in subs;
      OwnTotalNonNegative(subs[..|subs| - 1]);
      assert SubTotal(last) >= last.amount;
    }
  }

  datatype BreakdownRow = BreakdownRow(
    currency: Currency,
    count: nat,
    totalInCurrency: real,
    totalInSelected: real)

  /** A row's own total taken to the display currency (lines 185-187). */
  function RowInSelected(own: real, c: Currency, selected: Option<Currency>): (r: real)
    requires c.conversionRate != 0.0
    ensures selected.None? ==> r == own
    ensures own == 0.0 ==> r == 0.0
  {
    if selected.Some? then own / c.conversionRate * selected.value.conversionRate else own
  }

  /** The row a currency gets: its subscriptions, counted and summed. */
  ghost predicate RowOf(r: BreakdownRow, subs: seq<Subscription>, selected: Option<Currency>)
    requires r.currency.conversionRate != 0.0
  {
    var mine := SubsIn(subs, r.currency.id);
    r.count == |mine| >= 1 &&
    r.totalInCurrency == OwnTotal(mine) &&
    r.totalInSelected == RowInSelected(r.totalInCurrency, r.currency, selected)
  }

  /** One row per currency that has subscriptions, in the order of the currency list. */
  function Breakdown(cs: seq<Currency>, subs: seq<Subscription>, selected: Option<Currency>): (rows: seq<BreakdownRow>)
    requires NonzeroRates(cs)
    ensures |rows| <= |cs|
  {
    if |cs| == 0 then []
    else
      var c := cs[0];
      var mine := SubsIn(subs, c.id);
      var rest := Breakdown(cs[1..], subs, selected);
      if |mine| == 0 then
        rest
      else
        var own := OwnTotal(mine);
        [BreakdownRow(c, |mine|, own, RowInSelected(own, c, selected))] + rest
  }

  /** Every row belongs to a listed currency and counts and sums exactly that currency's subscriptions. */
  lemma {:induction false} BreakdownRows(cs: seq<Currency>, subs: seq<Subscription>, selected: Option<Currency>)
    requires NonzeroRates(cs)
    ensures forall r :: r in Breakdown(cs, subs, selected) ==> r.currency in cs && RowOf(r, subs, selected)
  {
    if |cs| > 0 {
      BreakdownRows(cs[1..], subs, selected);
      assert forall c :: c in cs[1..] ==> c in cs;
    }
  }

  /** A currency gets a row exactly when some subscription is in it. */
  lemma {:induction false} BreakdownCovers(cs: seq<Currency>, subs: seq<Subscription>, selected: Option<Currency>, c: Currency)
    requires NonzeroRates(cs) && c in cs
    ensures (exists r :: r in Breakdown(cs, subs, selected) && r.currency == c) <==>
            (exists s :: s in subs && s.currencyId == c.id)
  {
    var rows := Breakdown(cs, subs, selected);
    var mine := SubsIn(subs, cs[0].id);
    var rest := Breakdown(cs[1..], subs, selected);
    if c == cs[0] {
      if |mine| == 0 {
        BreakdownRows(cs, subs, selected);
        assert forall s :: s in subs ==> s.currencyId != c.id;
        assert forall r :: r in rows ==> r.currency != c;
      } else {
        assert rows[0].currency == c;
        assert mine[0] in subs;
      }
    } else {
      assert c in cs[1..];
      BreakdownCovers(cs[1..], subs, selected, c);
      if |mine| != 0 {
        assert rows == [rows[0]] + rest;
        assert forall r :: r in rows && r.currency == c ==> r in rest;
      }
    }
  }

  /** Sum of the rows' totals in the display currency. */
  function RowsSelected(rows: seq<BreakdownRow>): real {
    if |rows| == 0 then 0.0 else rows[0].totalInSelected + RowsSelected(rows[1..])
  }

  /** Per currency, in list order: its subscriptions' total taken back to dollars. */
  function PerCurrencyBase(cs: seq<Currency>, subs: seq<Subscription>): real
    requires NonzeroRates(cs)
  {
    if |cs| == 0 then 0.0 else OwnTotal(SubsIn(subs, cs[0].id)) / cs[0].conversionRate + PerCurrencyBase(cs[1..], subs)
  }

  /** What one subscription adds to `PerCurrencyBase`: its share for every currency carrying its id. */
  function Share(cs: seq<Currency>, s: Subscription): real
    requires NonzeroRates(cs)
  {
    if |cs| == 0 then 0.0
    else (if cs[0].id == s.currencyId then SubTotal(s) / cs[0].conversionRate else 0.0) + Share(cs[1..], s)
  }

  lemma ScaleSum(x: real, y: real, k: real)
    ensures (x + y) * k == x * k + y * k
  {
  }

  /** Per currency, in list order: its subscriptions' total shown in the display currency. */
  function PerCurrencySelected(cs: seq<Currency>, subs: seq<Subscription>, selected: Option<Currency>): real
    requires NonzeroRates(cs)
  {
    if |cs| == 0 then 0.0
    else RowInSelected(OwnTotal(SubsIn(subs, cs[0].id)), cs[0], selected) + PerCurrencySelected(cs[1..], subs, selected)
  }

  /** The rows' display totals are the per-currency display totals: currencies without rows add nothing. */
  lemma {:induction false} RowsArePerCurrency(cs: seq<Currency>, subs: seq<Subscription>, selected: Option<Currency>)
    requires NonzeroRates(cs)
    ensures RowsSelected(Breakdown(cs, subs, selected)) == PerCurrencySelected(cs, subs, selected)
  {
    if |cs| > 0 {
      RowsArePerCurrency(cs[1..], subs, selected);
      var mine := SubsIn(subs, cs[0].id);
      var restRows := Breakdown(cs[1..], subs, selected);
      if |mine| == 0 {
        assert Breakdown(cs, subs, selected) == restRows;
        assert OwnTotal(mine) == 0.0;
      } else {
        assert Breakdown(cs, subs, selected)[1..] == restRows;
      }
    }
  }

  /** Showing each currency's dollar total in the display currency is showing their sum in it. */
  lemma PerCurrencyScaled(cs: seq<Currency>, subs: seq<Subscription>, selected: Currency)
    requires NonzeroRates(cs)
    ensures PerCurrencySelected(cs, subs, Some(selected)) == InSelected(PerCurrencyBase(cs, subs), Some(selected))
  {
    PerCurrencyTimesRate(cs, subs, selected);
  }

  lemma {:induction false} PerCurrencyTimesRate(cs: seq<Currency>, subs: seq<Subscription>, selected: Currency)
    requires NonzeroRates(cs)
    ensures PerCurrencySelected(cs, subs, Some(selected)) == PerCurrencyBase(cs, subs) * selected.conversionRate
  {
    if |cs| > 0 {
      PerCurrencyTimesRate(cs[1..], subs, selected);
      var x := OwnTotal(SubsIn(subs, cs[0].id)) / cs[0].conversionRate;
      ScaleSum(x, PerCurrencyBase(cs[1..], subs), selected.conversionRate);
    }
  }

  lemma {:induction false} PerCurrencyEmpty(cs: seq<Currency>)
    requires NonzeroRates(cs)
    ensures PerCurrencyBase(cs, []) == 0.0
  {
    if |cs| > 0 {
      PerCurrencyEmpty(cs[1..]);
    }
  }

  lemma DivideSum(total: real, a: real, b: real, r: real)
    requires r != 0.0 && total == a + b
    ensures total / r == a / r + b / r
  {
  }

  /** Adding a subscription to one currency's list adds its charge to that currency's total. */
  lemma OwnTotalOfNext(subs: seq<Subscription>, id: string)
    requires |subs| > 0
    ensures OwnTotal(SubsIn(subs, id)) ==
            OwnTotal(SubsIn(subs[..|subs| - 1], id)) +
            (if subs[|subs| - 1].currencyId == id then SubTotal(subs[|subs| - 1]) else 0.0)
  {
    var before := SubsIn(subs[..|subs| - 1], id);
    var last := subs[|subs| - 1];
    if last.currencyId == id {
      assert SubsIn(subs, id) == before + [last];
      assert (before + [last])[..|before|] == before;
    } else {
      assert SubsIn(subs, id) == before;
    }
  }

  lemma {:induction false} PerCurrencyStep(cs: seq<Currency>, subs: seq<Subscription>)
    requires NonzeroRates(cs) && |subs| > 0
    ensures PerCurrencyBase(cs, subs) == PerCurrencyBase(cs, subs[..|subs| - 1]) + Share(cs, subs[|subs| - 1])
  {
    if |cs| > 0 {
      assert NonzeroRates(cs[1..]);
      PerCurrencyStep(cs[1..], subs);
      var init := subs[..|subs| - 1];
      var last := subs[|subs| - 1];
      var rate := cs[0].conversionRate;
      var before := OwnTotal(SubsIn(init, cs[0].id));
      OwnTotalOfNext(subs, cs[0].id);
      assert PerCurrencyBase(cs, subs) == OwnTotal(SubsIn(subs, cs[0].id)) / rate + PerCurrencyBase(cs[1..], subs);
      assert PerCurrencyBase(cs, init) == before / rate + PerCurrencyBase(cs[1..], init);
      if last.currencyId == cs[0].id {
        DivideSum(OwnTotal(SubsIn(subs, cs[0].id)), before, SubTotal(last), rate);
        assert Share(cs, last) == SubTotal(last) / rate + Share(cs[1..], last);
      } else {
        assert OwnTotal(SubsIn(subs, cs[0].id)) == before;
        assert Share(cs, last) == Share(cs[1..], last);
      }
    }
  }

  lemma {:induction false} ShareAbsent(cs: seq<Currency>, s: Subscription)
    requires NonzeroRates(cs)
    requires forall c :: c in cs ==> c.id != s.currencyId
    ensures Share(cs, s) == 0.0
  {
    if |cs| > 0 {
      ShareAbsent(cs[1..], s);
    }
  }

  /** With unique ids, a subscription's share is exactly its contribution to the headline total. */
  lemma {:induction false} ShareIsContribution(cs: seq<Currency>, s: Subscription)
    requires NonzeroRates(cs) && UniqueIds(cs)
    ensures Share(cs, s) == Contribution(s, cs)
  {
    if |cs| > 0 {
      assert UniqueIds(cs[1..]);
      if cs[0].id == s.currencyId {
        assert forall c :: c in cs[1..] ==> c.id != s.currencyId;
        ShareAbsent(cs[1..], s);
      } else {
        ShareIsContribution(cs[1..], s);
      }
    }
  }

  /** With unique ids, the per-currency dollar totals add up to the base total. */
  lemma {:induction false} PerCurrencyIsBaseTotal(cs: seq<Currency>, subs: seq<Subscription>)
    requires NonzeroRates(cs) && UniqueIds(cs)
    ensures PerCurrencyBase(cs, subs) == BaseTotal(subs, cs)
    decreases |subs|
  {
    if |subs| == 0 {
      PerCurrencyEmpty(cs);
    } else {
      PerCurrencyIsBaseTotal(cs, subs[..|subs| - 1]);
      PerCurrencyStep(cs, subs);
      ShareIsContribution(cs, subs[|subs| - 1]);
    }
  }

  /** With unique ids, the per-currency display totals add up to the headline total. */
  lemma {:induction false} PerCurrencyShown(cs: seq<Currency>, subs: seq<Subscription>, selected: Currency)
    requires NonzeroRates(cs) && UniqueIds(cs)
    ensures PerCurrencySelected(cs, subs, Some(selected)) == InSelected(BaseTotal(subs, cs), Some(selected))
  {
    PerCurrencyIsBaseTotal(cs, subs);
    PerCurrencyScaled(cs, subs, selected);
  }

  /**
   * With a display currency selected and currency ids unique, the breakdown
   * rows add up to the headline total.
   */
  lemma {:induction false} BreakdownAddsUpToTotal(cs: seq<Currency>, subs: seq<Subscription>, selected: Currency)
    requires NonzeroRates(cs) && UniqueIds(cs)
    ensures RowsSelected(Breakdown(cs, subs, Some(selected))) == InSelected(BaseTotal(subs, cs), Some(selected))
  {
    RowsArePerCurrency(cs, subs, Some(selected));
    PerCurrencyShown(cs, subs, selected);
  }
}
