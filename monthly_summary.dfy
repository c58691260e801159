/**
 * The monthly summary card (components/subscription-summary.tsx): the total
 * of all subscriptions in the display currency, the average per
 * subscription, the next payment day with what falls due on it, and the
 * breakdown by currency.
 *
 * Every amount is first converted to the base currency (US dollars) by
 * dividing by its currency's rate, then multiplied by the display
 * currency's rate. A subscription whose currency is missing is skipped.
 */
module MonthlySummary {
  import opened Types

  /** A subscription's charge including tax (lines 35 and 181). */
  function SubTotal(s: Subscription): (t: real)
    ensures !s.hasTax ==> t == s.amount
    ensures s.amount >= 0.0 && s.taxRate >= 0.0 ==> t >= s.amount
  {
    assert s.amount >= 0.0 && s.taxRate >= 0.0 ==> s.amount * (s.taxRate / 100.0) >= 0.0;
    if s.hasTax then s.amount * (1.0 + s.taxRate / 100.0) else s.amount
  }

  /** What one subscription adds to the base total: nothing when its currency is missing. */
  function Contribution(s: Subscription, cs: seq<Currency>): (r: real)
    requires NonzeroRates(cs)
    ensures !Counted(s, cs) ==> r == 0.0
  {
    match FindCurrency(cs, s.currencyId)
    case None => 0.0
    case Some(c) => SubTotal(s) / c.conversionRate
  }

  /** The subscription's currency is known, so it is counted. */
  predicate Counted(s: Subscription, cs: seq<Currency>) {
    FindCurrency(cs, s.currencyId).Some?
  }

  /** Sum of the contributions, in US dollars (the specification of `totalUSD`). */
  function BaseTotal(subs: seq<Subscription>, cs: seq<Currency>): (r: real)
    requires NonzeroRates(cs)
    ensures |subs| > 0 && !Counted(subs[|subs| - 1], cs) ==> r == BaseTotal(subs[..|subs| - 1], cs)
    decreases |subs|
  {
    if |subs| == 0 then 0.0
    else BaseTotal(subs[..|subs| - 1], cs) + Contribution(subs[|subs| - 1], cs)
  }

  /** A counted subscription contributes the dollars that its currency's rate turns back into its charge. */
  lemma ContributionConverts(s: Subscription, cs: seq<Currency>)
    requires NonzeroRates(cs) && Counted(s, cs)
    ensures Contribution(s, cs) * FindCurrency(cs, s.currencyId).value.conversionRate == SubTotal(s)
  {
    var rate := FindCurrency(cs, s.currencyId).value.conversionRate;
    assert rate != 0.0;
    assert SubTotal(s) / rate * rate == SubTotal(s);
  }

  /** With positive rates and non-negative amounts and tax rates, the dollar total is never negative. */
  lemma {:induction false} BaseTotalNonNegative(subs: seq<Subscription>, cs: seq<Currency>)
    requires forall c :: c in cs ==> c.conversionRate > 0.0
    requires forall s :: s in subs ==> s.amount >= 0.0 && s.taxRate >= 0.0
    ensures BaseTotal(subs, cs) >= 0.0
    decreases |subs|
  {
    if |subs| > 0 {
      var last := subs[|subs| - 1];
      assert last in subs;
      assert forall s :: s in subs[..|subs| - 1] ==> s in subs;
      BaseTotalNonNegative(subs[..|subs| - 1], cs);
      if Counted(last, cs) {
        NonNegativeQuotient(SubTotal(last), FindCurrency(cs, last.currencyId).value.conversionRate);
      }
    }
  }

  lemma NonNegativeQuotient(a: real, r: real)
    requires a >= 0.0 && r > 0.0
    ensures a / r >= 0.0
  {
  }

  /** Sum of the contributions of the subscriptions due on `day`. */
  function DayTotal(subs: seq<Subscription>, cs: seq<Currency>, day: real): real
    requires NonzeroRates(cs)
    decreases |subs|
  {
    if |subs| == 0 then 0.0
    else
      var last := subs[|subs| - 1];
      DayTotal(subs[..|subs| - 1], cs, day) + (if last.paymentDay == day then Contribution(last, cs) else 0.0)
  }

  /** The payment days of the counted subscriptions: the keys of `subscriptionsByDay`. */
  function RecordedDays(subs: seq<Subscription>, cs: seq<Currency>): set<real>
    decreases |subs|
  {
    if |subs| == 0 then {}
    else
      var last := subs[|subs| - 1];
      RecordedDays(subs[..|subs| - 1], cs) + (if Counted(last, cs) then {last.paymentDay} else {})
  }

  /**
   * The day map the loop builds (lines 41-45): each counted subscription's
   * dollars added under its payment day, the day opened at 0 first if new.
   */
  function DayMap(seen: seq<Subscription>, cs: seq<Currency>): map<real, real>
    requires NonzeroRates(cs)
    decreases |seen|
  {
    if |seen| == 0 then map[] else AddDay(DayMap(seen[..|seen| - 1], cs), seen[|seen| - 1], cs)
  }

  /** One subscription taken into the day map: nothing when its currency is missing. */
  function AddDay(m: map<real, real>, s: Subscription, cs: seq<Currency>): (r: map<real, real>)
    requires NonzeroRates(cs)
    ensures !Counted(s, cs) ==> r == m
    ensures Counted(s, cs) ==> r.Keys == m.Keys + {s.paymentDay}
    ensures forall d :: d in m && d != s.paymentDay ==> r[d] == m[d]
  {
    if !Counted(s, cs) then m
    else m[s.paymentDay := (if s.paymentDay in m then m[s.paymentDay] else 0.0) + Contribution(s, cs)]
  }

  /** The day map holds exactly the recorded days, each with the dollars due on it. */
  lemma {:induction false} DayMapTotals(seen: seq<Subscription>, cs: seq<Currency>)
    requires NonzeroRates(cs)
    ensures DayMap(seen, cs).Keys == RecordedDays(seen, cs)
    ensures forall d :: d in DayMap(seen, cs) ==> DayMap(seen, cs)[d] == DayTotal(seen, cs, d)
    ensures forall d :: d !in DayMap(seen, cs) ==> DayTotal(seen, cs, d) == 0.0
    decreases |seen|
  {
    if |seen| > 0 {
      DayMapTotals(seen[..|seen| - 1], cs);
    }
  }

  /** How the running total grows when the loop takes one more subscription. */
  lemma TotalStep(subs: seq<Subscription>, cs: seq<Currency>, i: int, total: real, amount: real)
    requires NonzeroRates(cs) && 0 <= i < |subs|
    requires total == BaseTotal(subs[..i], cs) && amount == Contribution(subs[i], cs)
    ensures total + amount == BaseTotal(subs[..i + 1], cs)
  {
    assert subs[..i + 1][..i] == subs[..i];
  }

  /**
   * `if (!byDay[day]) byDay[day] = 0; byDay[day] += amount`: a day that is
   * missing, or holds 0, is set to 0 before the amount is added.
   */
  function AddedToDay(byDay: map<real, real>, day: real, amount: real): (r: map<real, real>)
    ensures r.Keys == byDay.Keys + {day}
    ensures day in byDay ==> r[day] == byDay[day] + amount
    ensures day !in byDay ==> r[day] == amount
    ensures forall d :: d in byDay && d != day ==> r[d] == byDay[d]
  {
    var reset := if day !in byDay || byDay[day] == 0.0 then byDay[day := 0.0] else byDay;
    reset[day := reset[day] + amount]
  }

  /** Lines 42-45, in the loop's own two steps. */
  method AddToDay(byDay: map<real, real>, day: real, amount: real) returns (r: map<real, real>)
    ensures r == AddedToDay(byDay, day, amount)
    ensures r.Keys == byDay.Keys + {day}
    ensures day in byDay ==> r[day] == byDay[day] + amount
    ensures day !in byDay ==> r[day] == amount
    ensures forall d :: d in byDay && d != day ==> r[d] == byDay[d]
  {
    r := byDay;
    if day !in r || r[day] == 0.0 {
      r := r[day := 0.0];
    }
    r := r[day := r[day] + amount];
  }

  /** Adding a counted subscription's dollars to the day map of the ones before it gives the day map with it. */
  lemma RecordDay(subs: seq<Subscription>, cs: seq<Currency>, i: int, byDay: map<real, real>, amount: real)
    requires NonzeroRates(cs) && 0 <= i < |subs| && Counted(subs[i], cs)
    requires byDay == DayMap(subs[..i], cs) && amount == Contribution(subs[i], cs)
    ensures DayMap(subs[..i + 1], cs) == AddedToDay(byDay, subs[i].paymentDay, amount)
  {
    DayMapStep(subs, cs, i);
    AddCounted(byDay, subs[i], cs, amount);
  }

  /** The day map's step and the loop's step agree, whether or not the day was set already. */
  lemma AddCounted(m: map<real, real>, s: Subscription, cs: seq<Currency>, amount: real)
    requires NonzeroRates(cs) && Counted(s, cs) && amount == Contribution(s, cs)
    ensures AddDay(m, s, cs) == AddedToDay(m, s.paymentDay, amount)
  {
    var k := s.paymentDay;
    if k !in m || m[k] == 0.0 {
      OpenThenAdd(m, k, amount);
    }
  }

  /** The day map of one more subscription. */
  lemma DayMapStep(subs: seq<Subscription>, cs: seq<Currency>, i: int)
    requires NonzeroRates(cs) && 0 <= i < |subs|
    ensures DayMap(subs[..i + 1], cs) == AddDay(DayMap(subs[..i], cs), subs[i], cs)
  {
    assert subs[..i + 1][..i] == subs[..i];
  }

  /** Opening a day at 0 and adding to it is adding to nothing. */
  lemma OpenThenAdd(m: map<real, real>, k: real, v: real)
    ensures m[k := 0.0][k := m[k := 0.0][k] + v] == m[k := 0.0 + v]
  {
  }

  /** A base amount shown in the selected currency, or left as it is when none is selected (line 48). */
  function InSelected(baseAmount: real, selected: Option<Currency>): (r: real)
    ensures selected.None? ==> r == baseAmount
    ensures selected.Some? && selected.value.conversionRate != 0.0 ==> r / selected.value.conversionRate == baseAmount
  {
    if selected.Some? then baseAmount * selected.value.conversionRate else baseAmount
  }

  /** `selectedCurrencyData?.conversionRate || 1`: a missing or zero rate reads as 1 (line 66). */
  function RateOrOne(selected: Option<Currency>): (r: real)
    ensures r != 0.0
    ensures selected.Some? && selected.value.conversionRate != 0.0 ==> r == selected.value.conversionRate
  {
    if selected.Some? && selected.value.conversionRate != 0.0 then selected.value.conversionRate else 1.0
  }

  function ElemSet(ds: seq<real>): set<real> {
    set d | d in ds
  }

  predicate StrictlyIncreasing(ds: seq<real>) {
    forall i, j :: 0 <= i < j < |ds| ==> ds[i] < ds[j]
  }

  /**
   * The day the card announces as the next payment: the earliest recorded day
   * not before today, or, when every day is past, the earliest day of all
   * (it falls due next month).
   */
  ghost predicate IsNextDay(d: real, days: set<real>, currentDay: int) {
    if exists x :: x in days && x >= currentDay as real then
      d >= currentDay as real && forall x :: x in days && x >= currentDay as real ==> d <= x
    else
      forall x :: x in days ==> d <= x
  }

  /** `paymentDays.find((day) => day >= bound)`: the first element reaching the bound. */
  function FindAtLeast(ds: seq<real>, bound: real): (r: Option<real>)
    ensures r.None? <==> forall d :: d in ds ==> d < bound
    ensures r.Some? ==> r.value in ds && r.value >= bound
    ensures r.Some? && StrictlyIncreasing(ds) ==> forall d :: d in ds && d >= bound ==> r.value <= d
  {
    var k := FirstIndex(ds, (d: real) => d >= bound);
    if k < |ds| then assert ds[k] in ds; Some(ds[k]) else None
  }

  /** Lines 60-63: the first day not before today; failing that (or when it is 0), the first day. */
  function NextPaymentDay(ds: seq<real>, currentDay: int): (r: Option<real>)
    requires StrictlyIncreasing(ds) && currentDay >= 1
    ensures r.None? <==> ElemSet(ds) == {}
    ensures r.Some? ==> r.value in ds && IsNextDay(r.value, ElemSet(ds), currentDay)
  {
    var found := FindAtLeast(ds, currentDay as real);
    assert |ds| > 0 ==> ds[0] in ElemSet(ds);
    if found.None? || found.value == 0.0 then
      if |ds| == 0 then None
      else
        assert forall x :: x in ds ==> ds[0] <= x;
        Some(ds[0])
    else
      assert found.value in ElemSet(ds);
      found
  }

  /** The two situations the card distinguishes: a day still ahead, and the wrap to next month. */
  lemma NextDayExamples()
    ensures NextPaymentDay([5.0, 20.0], 10) == Some(20.0)
    ensures NextPaymentDay([5.0, 20.0], 25) == Some(5.0)
  {
    NextDayAhead();
    NextDayWraps();
  }

  lemma NextDayAhead()
    ensures NextPaymentDay([5.0, 20.0], 10) == Some(20.0)
  {
    assert [5.0, 20.0][1..] == [20.0];
    assert FirstIndex([5.0, 20.0], (d: real) => d >= 10.0) == 1;
  }

  lemma NextDayWraps()
    ensures NextPaymentDay([5.0, 20.0], 25) == Some(5.0)
  {
    assert [5.0, 20.0][1..] == [20.0] && [20.0][1..] == [];
    assert FirstIndex([5.0, 20.0], (d: real) => d >= 25.0) == 2;
  }

  /** A set that is not empty has a member. */
  lemma HasMember(s: set<real>)
    ensures s != {} ==> exists z :: z in s
  {
    if forall z :: z !in s {
      assert s == {};
    }
  }

  lemma {:induction false} MinimumExists(s: set<real>)
    requires s != {}
    ensures exists m :: m in s && forall x :: x in s ==> m <= x
    decreases |s|
  {
    HasMember(s);
    var y :| y in s;
    if s != {y} {
      var others := s - {y};
      MinimumExists(others);
      var m :| m in others && forall x :: x in others ==> m <= x;
      var least := if y < m then y else m;
      forall x | x in s
        ensures least <= x
      {
        if x != y {
          assert x in others;
        }
      }
      assert least in s;
    }
  }

  /** `ds` holds, in increasing order, the days taken so far, all below the days in `rest`. */
  ghost predicate SortedSoFar(ds: seq<real>, rest: set<real>, days: set<real>) {
    StrictlyIncreasing(ds) &&
    ElemSet(ds) + rest == days &&
    forall i, y :: 0 <= i < |ds| && y in rest ==> ds[i] < y
  }

  /** Taking the least remaining day keeps the days sorted. */
  lemma TakeLeast(ds: seq<real>, rest: set<real>, days: set<real>, m: real)
    requires SortedSoFar(ds, rest, days)
    requires m in rest && forall x :: x in rest ==> m <= x
    ensures SortedSoFar(ds + [m], rest - {m}, days)
  {
    var longer := ds + [m];
    var smaller := rest - {m};
    assert forall i :: 0 <= i < |ds| ==> longer[i] == ds[i] && ds[i] < m;
    assert ElemSet(longer) == ElemSet(ds) + {m};
    forall i, y | 0 <= i < |longer| && y in smaller
      ensures longer[i] < y
    {
      if i == |ds| {
        assert m <= y && m != y;
      }
    }
  }

  /** `Object.keys(subscriptionsByDay).map(Number).sort((a, b) => a - b)`. */
  method SortDays(days: set<real>) returns (ds: seq<real>)
    ensures StrictlyIncreasing(ds)
    ensures ElemSet(ds) == days
  {
    ds := [];
    var rest := days;
    assert ElemSet(ds) == {};
    while rest != {}
      invariant SortedSoFar(ds, rest, days)
      decreases |rest|
    {
      MinimumExists(rest);
      var m :| m in rest && forall x :: x in rest ==> m <= x;
      TakeLeast(ds, rest, days, m);
      ds := ds + [m];
      rest := rest - {m};
    }
  }

  /** What the card shows. */
  datatype Calculations = Calculations(
    total: real,
    average: real,
    count: nat,
    nextPaymentDay: Option<real>,
    nextPaymentAmount: real)

  /** What falls due on `day`, in the display currency (lines 65-67). */
  function DueOn(subs: seq<Subscription>, cs: seq<Currency>, day: real, selected: Option<Currency>): (r: real)
    requires NonzeroRates(cs)
    ensures (forall i :: 0 <= i < |subs| ==> subs[i].paymentDay != day) ==> r == 0.0
    ensures selected.Some? && selected.value.conversionRate != 0.0 ==> r == DayTotal(subs, cs, day) * selected.value.conversionRate
    ensures selected.None? || selected.value.conversionRate == 0.0 ==> r == DayTotal(subs, cs, day)
  {
    NothingDue(subs, cs, day);
    ShownNext(DayTotal(subs, cs, day), selected)
  }

  /** A day no subscription falls on has nothing due. */
  lemma {:induction false} NothingDue(subs: seq<Subscription>, cs: seq<Currency>, day: real)
    requires NonzeroRates(cs)
    ensures (forall i :: 0 <= i < |subs| ==> subs[i].paymentDay != day) ==> DayTotal(subs, cs, day) == 0.0
    decreases |subs|
  {
    if |subs| > 0 {
      NothingDue(subs[..|subs| - 1], cs, day);
    }
  }

  /** Line 66: a day's dollar amount in the display currency, a missing or zero rate reading as 1. */
  function ShownNext(dollars: real, selected: Option<Currency>): (r: real)
    ensures selected.None? ==> r == dollars
    ensures dollars == 0.0 ==> r == 0.0
  {
    dollars * RateOrOne(selected)
  }

  /** Line 51: the total spread evenly over the subscriptions, or 0 when there are none. */
  function Average(total: real, count: nat): (a: real)
    ensures count > 0 ==> a * (count as real) == total
    ensures count == 0 ==> a == 0.0
  {
    if count > 0 then total / (count as real) else 0.0
  }

  /**
   * Lines 27-46: the running dollar total and the dollar amount due on each
   * payment day, skipping subscriptions whose currency is missing.
   */
  method TallyByDay(subs: seq<Subscription>, cs: seq<Currency>) returns (totalUSD: real, byDay: map<real, real>)
    requires NonzeroRates(cs)
    ensures totalUSD == BaseTotal(subs, cs)
    ensures byDay.Keys == RecordedDays(subs, cs)
    ensures forall d :: d in byDay ==> byDay[d] == DayTotal(subs, cs, d)
  {
    totalUSD := 0.0;
    byDay := map[];
    var i := 0;
    while i < |subs|
      invariant 0 <= i <= |subs|
      invariant totalUSD == BaseTotal(subs[..i], cs)
      invariant byDay == DayMap(subs[..i], cs)
    {
      var sub := subs[i];
      TallyStep(subs, cs, i, totalUSD, byDay);
      var currency := FindCurrency(cs, sub.currencyId);
      if currency.Some? {
        var subTotal := SubTotal(sub);
        var amountInUSD := subTotal / currency.value.conversionRate;
        totalUSD := totalUSD + amountInUSD;
        byDay := AddToDay(byDay, sub.paymentDay, amountInUSD);
      }
      i := i + 1;
    }
    assert subs[..|subs|] == subs;
    DayMapTotals(subs, cs);
  }

  /** One turn of the tally loop: what the running total and the day map become. */
  lemma TallyStep(subs: seq<Subscription>, cs: seq<Currency>, i: int, total: real, byDay: map<real, real>)
    requires NonzeroRates(cs) && 0 <= i < |subs|
    requires total == BaseTotal(subs[..i], cs) && byDay == DayMap(subs[..i], cs)
    ensures FindCurrency(cs, subs[i].currencyId).Some? ==>
              var amount := SubTotal(subs[i]) / FindCurrency(cs, subs[i].currencyId).value.conversionRate;
              total + amount == BaseTotal(subs[..i + 1], cs) &&
              AddedToDay(byDay, subs[i].paymentDay, amount) == DayMap(subs[..i + 1], cs)
    ensures FindCurrency(cs, subs[i].currencyId).None? ==>
              total == BaseTotal(subs[..i + 1], cs) && byDay == DayMap(subs[..i + 1], cs)
  {
    var sub := subs[i];
    var amount := Contribution(sub, cs);
    TotalStep(subs, cs, i, total, amount);
    if Counted(sub, cs) {
      RecordDay(subs, cs, i, byDay, amount);
    } else {
      DayMapStep(subs, cs, i);
    }
  }

  /**
   * Lines 25-76. `currentDay` is today's day of the month, which the source
   * reads from the clock. Rates are nonzero: the forms and the import check
   * admit only positive rates.
   */
  method Calculate(subs: seq<Subscription>, cs: seq<Currency>, selectedId: string, currentDay: int)
    returns (summary: Calculations)
    requires NonzeroRates(cs)
    requires 1 <= currentDay <= 31
    ensures summary.total == InSelected(BaseTotal(subs, cs), FindCurrency(cs, selectedId))
    ensures summary.count == |subs|
    ensures summary.average == Average(summary.total, |subs|)
    ensures summary.nextPaymentDay.None? <==> RecordedDays(subs, cs) == {}
    ensures summary.nextPaymentDay.Some? ==>
              summary.nextPaymentDay.value in RecordedDays(subs, cs) &&
              IsNextDay(summary.nextPaymentDay.value, RecordedDays(subs, cs), currentDay)
    ensures summary.nextPaymentAmount ==
              if summary.nextPaymentDay.Some? && summary.nextPaymentDay.value != 0.0
              then DueOn(subs, cs, summary.nextPaymentDay.value, FindCurrency(cs, selectedId))
              else 0.0
  {
    var totalUSD, byDay := TallyByDay(subs, cs);

    var selected := FindCurrency(cs, selectedId);
    var total := InSelected(totalUSD, selected);
    var average := Average(total, |subs|);

    var paymentDays := SortDays(byDay.Keys);
    assert ElemSet(paymentDays) == RecordedDays(subs, cs);
    var next := NextPaymentDay(paymentDays, currentDay);
    var nextAmount := 0.0;
    if next.Some? && next.value != 0.0 {
      assert next.value in ElemSet(paymentDays);
      nextAmount := ShownNext(byDay[next.value], selected);
    }
    summary := Calculations(total, average, |subs|, next, nextAmount);
  }

  /** Sum of the day totals over a list of days. */
  function SumOverDays(subs: seq<Subscription>, cs: seq<Currency>, ds: seq<real>): real
    requires NonzeroRates(cs)
  {
    if |ds| == 0 then 0.0 else DayTotal(subs, cs, ds[0]) + SumOverDays(subs, cs, ds[1..])
  }

  predicate Distinct(ds: seq<real>) {
    forall i, j :: 0 <= i < j < |ds| ==> ds[i] != ds[j]
  }

  /** Sum over `ds` of `x` at the positions holding `day`. */
  function Hits(ds: seq<real>, day: real, x: real): real {
    if |ds| == 0 then 0.0 else (if ds[0] == day then x else 0.0) + Hits(ds[1..], day, x)
  }

  lemma {:induction false} HitsOnce(ds: seq<real>, day: real, x: real)
    requires Distinct(ds)
    ensures Hits(ds, day, x) == if day in ds then x else 0.0
  {
    if |ds| > 0 {
      HitsOnce(ds[1..], day, x);
      assert ds[0] == day ==> day !in ds[1..];
      assert day in ds <==> ds[0] == day || day in ds[1..];
    }
  }

  lemma {:induction false} HitsOfZero(ds: seq<real>, day: real)
    ensures Hits(ds, day, 0.0) == 0.0
  {
    if |ds| > 0 {
      HitsOfZero(ds[1..], day);
    }
  }

  lemma {:induction false} SumOverDaysStep(subs: seq<Subscription>, cs: seq<Currency>, ds: seq<real>)
    requires NonzeroRates(cs) && |subs| > 0
    ensures SumOverDays(subs, cs, ds) ==
            SumOverDays(subs[..|subs| - 1], cs, ds) + Hits(ds, subs[|subs| - 1].paymentDay, Contribution(subs[|subs| - 1], cs))
  {
    if |ds| > 0 {
      SumOverDaysStep(subs, cs, ds[1..]);
    }
  }

  /**
   * The per-day amounts add up to the base total: summing the day totals over
   * any list of distinct days that covers every recorded day gives `totalUSD`.
   */
  lemma {:induction false} DaySumsAddUp(subs: seq<Subscription>, cs: seq<Currency>, ds: seq<real>)
    requires NonzeroRates(cs) && Distinct(ds)
    requires forall d :: d in RecordedDays(subs, cs) ==> d in ds
    ensures SumOverDays(subs, cs, ds) == BaseTotal(subs, cs)
    decreases |subs|
  {
    if |subs| == 0 {
      ZeroDays(cs, ds);
    } else {
      var init := subs[..|subs| - 1];
      var last := subs[|subs| - 1];
      DaySumsAddUp(init, cs, ds);
      SumOverDaysStep(subs, cs, ds);
      if Counted(last, cs) {
        assert last.paymentDay in RecordedDays(subs, cs);
        HitsOnce(ds, last.paymentDay, Contribution(last, cs));
      } else {
        HitsOfZero(ds, last.paymentDay);
      }
    }
  }

  lemma {:induction false} ZeroDays(cs: seq<Currency>, ds: seq<real>)
    requires NonzeroRates(cs)
    ensures SumOverDays([], cs, ds) == 0.0
  {
    if |ds| > 0 {
      ZeroDays(cs, ds[1..]);
    }
  }

  /** A subscription whose currency is missing changes neither the total nor the days. */
  lemma MissingCurrencyIgnored(subs: seq<Subscription>, s: Subscription, cs: seq<Currency>)
    requires NonzeroRates(cs)
    requires forall c :: c in cs ==> c.id != s.currencyId
    ensures BaseTotal(subs + [s], cs) == BaseTotal(subs, cs)
    ensures RecordedDays(subs + [s], cs) == RecordedDays(subs, cs)
  {
    assert (subs + [s])[..|subs|] == subs;
  }

  /**
   * Switching the display currency is reversible: an amount shown in currency
   * `a`, taken back to dollars and shown in `b`, is what `b` shows directly.
   */
  lemma SwitchDisplayCurrency(baseAmount: real, a: Currency, b: Currency)
    requires a.conversionRate != 0.0
    ensures InSelected(InSelected(baseAmount, Some(a)) / a.conversionRate, Some(b)) == InSelected(baseAmount, Some(b))
  {
    assert baseAmount * a.conversionRate / a.conversionRate == baseAmount;
  }
}
