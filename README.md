# Subscription and payment bookkeeping, modelled in Dafny

This project models the bookkeeping core of a small, client-local
subscription tracker. It covers the following:

- **Store** (`Ledger`, `ledger.dfy`). It holds the currency registry, the subscription ledger, the payment ledger and the selected display currency. Its add, update (a patch whose fields win), delete and import/export operations are methods of a class that state the whole new state.
- **Monthly summary card** (`MonthlySummary`). It gives the total in US dollars and in the display currency, the average per subscription, the per-day totals, the next payment day and the amount due on it.
- **Per-currency breakdown** (`CurrencyBreakdown`). It shows each currency's own total and that total in the display currency.
- **Debt and paid summary** (`DebtSummary`). It gives the tax-inclusive debt and the payments made, both taken to the display currency.
- **Payment page** (`PaymentPage`). A subscription's outstanding balance is its charge minus what was paid, rounded to cents and floored at zero. The page also holds the total debt, the list of subscriptions still owing, "restart cycle" and "pay all".
- **Payment dialog** (`PaymentEntry`). It applies the three guards on a typed amount and records a partial or full installment, with its remaining-balance snapshot.
- **Payment history** (`PaymentHistory`). Payments are shown newest first, with the name and currency lookups and the partial-payment balance.
- **Currency and subscription managers** (`CurrencyAdmin`, `SubscriptionAdmin`). These are the forms, submit, edit and delete, including the guard on deleting the last currency and the tax total.
- **Import check** (`ImportExport`). These are the structural checks on an imported JSON snapshot, in the order they run, with their messages.
- **`formatCurrency`** (`Formatting`). This includes the thousands-grouping regular expression, proved equal to a reference grouping.

Supporting modules: `Types` (the records and the JavaScript `find` lookups) and `Text` (`split`).

Dates are day numbers, and amounts are exact reals. Where a formatted text is needed, amounts are whole cents.

Three things are inputs to the operations: parsed numbers from text fields, new ids and today's date. The same goes for the answer to a confirmation dialog.

Four behaviours of the code are modelled as written:

- The store itself deletes the last currency. Only the currency manager refuses to.
- "Restart cycle" deletes the payments one by one, in a loop.
- The import check does not look at payments at all. It accepts a fractional payment day.
- Import replaces only currencies and subscriptions; payments are kept.

## Model

| member | source | states |
|---|---|---|
| Types.FirstIndex | components/subscription-summary.tsx:31 | the position `find` stops at: the first element passing the test, every earlier one failing it, or the length when none passes |
| Types.FindCurrency | components/subscription-summary.tsx:31 | `find` by id: none exactly when no currency has the id; otherwise a currency of the list with that id, and no earlier one has it |
| Types.FindSubscription | components/payment-page.tsx:22 | `find` by id: none exactly when no subscription has the id; otherwise a member with that id, and no earlier one has it |
| Text.Split | components/payment-modal.tsx:41 | `split` on one character always yields at least one part |
| Text.SplitCount | components/payment-modal.tsx:41-42 | `split` yields one part more than there are separators |
| Text.SplitPrefix | lib/utils.ts:16 | a separator-free prefix stays glued to the first part of what follows |
| Text.SplitTwo | lib/utils.ts:16 | "a.b" with no separator in a or b splits into exactly [a, b] |
| Formatting.NatDigits | lib/utils.ts:16 | the integer text is non-empty and all digits |
| Formatting.NatDigitsValue | lib/utils.ts:16 | the integer text denotes exactly the number, with no leading zero |
| Formatting.NatDigitsShort | lib/utils.ts:17 | a number below 1000 has at most three digits |
| Formatting.IntegerText | lib/utils.ts:16 | `parts[0]` of `toFixed(2)`: starts with "-" exactly for a negative amount, and the digits after the sign denote the whole units |
| Formatting.FractionText | lib/utils.ts:16-18 | `toFixed(2)` always gives exactly two decimal digits, and they denote the cents |
| Formatting.ToFixed2 | lib/utils.ts:16 | `toFixed(2)` on whole cents: the integer text, then the only ".", then two digits denoting the cents |
| Formatting.FixedParts | lib/utils.ts:16 | splitting `toFixed(2)` on "." gives the sign-and-units text and the two decimals |
| Formatting.DigitRun | lib/utils.ts:17 | the run of digits starting at a position: all digits, and ended by a non-digit or the end |
| Formatting.LookaheadMeaning | lib/utils.ts:17 | the computed lookahead holds exactly when some number of digit triples ends the digit run |
| Formatting.ReplaceDigitSuffix | lib/utils.ts:17 | on a digit run after a word character, the global replace places separators every three digits from the right |
| Formatting.InsertThousands | lib/utils.ts:17 | the replace only inserts: the text never gets shorter, and an empty separator leaves it as it was |
| Formatting.InsertThousandsDigits | lib/utils.ts:17 | the regular-expression replace on a digit string equals the reference grouping |
| Formatting.InsertThousandsSigned | lib/utils.ts:17 | a leading minus is never followed by a separator; the digits are grouped as without it |
| Formatting.IntegerPartGrouped | lib/utils.ts:16-17 | the integer part is the sign and the grouped whole units |
| Formatting.FormatCurrency | lib/utils.ts:15-20 | symbol, sign, grouped whole units, decimal separator, two decimals |
| Formatting.GroupedFromLeft | lib/utils.ts:17 | grouping from the right equals the first digit and then the left-to-right groups of three |
| Formatting.GroupedLength | lib/utils.ts:17 | n digits receive exactly (n-1)/3 separators |
| Formatting.GroupedStartsWithDigit | lib/utils.ts:17 | no separator at the start of the grouped text |
| Formatting.EmptySeparatorKeepsDigits | lib/utils.ts:17 | an empty separator leaves the digits as they are |
| Formatting.DeleteSeparatorsRecoversDigits | lib/utils.ts:17 | removing a digit-free separator from the grouped text gives back the digits |
| Formatting.SmallAmountsUngrouped | lib/utils.ts:15-20 | amounts below 1000 units carry no thousands separator |
| Formatting.MinusFollowedByDigit | lib/utils.ts:15-20 | a negative amount shows the symbol, then "-", then a digit |
| Formatting.DefaultSeparatorsExample | lib/utils.ts:15 | with the default separators 1234.56 is "$1,234.56" |
| Ledger.Filter | lib/store.ts:57-58 | `filter` keeps exactly the elements that pass, and no more of them than there were |
| Ledger.MergeCurrency | lib/store.ts:52 | `{ ...c, ...patch }`: every field the patch gives wins, every field it omits keeps the currency's value |
| Ledger.MergeSubscription | lib/store.ts:65 | `{ ...s, ...patch }`: every field the patch gives wins, every field it omits keeps the subscription's value |
| Ledger.FilterConcat | lib/store.ts:70 | filtering commutes with concatenation, so survivors keep their order |
| Ledger.FilterAllKept | lib/store.ts:70 | a filter that keeps everything returns the list unchanged |
| Ledger.UpdateCurrencies | lib/store.ts:50-53 | same length; the currencies with the id are merged with the patch; the others are untouched |
| Ledger.RemoveCurrency | lib/store.ts:57 | keeps exactly the currencies whose id differs |
| Ledger.RemoveSubscriptionsOf | lib/store.ts:58 | keeps exactly the subscriptions of other currencies |
| Ledger.UpdateSubscriptions | lib/store.ts:63-66 | same length; the subscriptions with the id are merged with the patch; the others are untouched |
| Ledger.RemoveSubscription | lib/store.ts:68-71 | keeps exactly the subscriptions whose id differs |
| Ledger.RemovePayment | components/payment-page.tsx:48 | keeps exactly the payments whose id differs |
| Ledger.ImportedCurrencies | lib/store.ts:81 | never empty; the imported list when it has any currency |
| Ledger.DeleteKeepsIntegrity | lib/store.ts:55-59 | the cascade leaves every subscription pointing at a remaining currency |
| Ledger.UpdateKeepsIntegrity | lib/store.ts:50-53 | an update that does not change ids keeps every reference valid |
| Ledger.UpdateWithoutMatchIsNoOp | lib/store.ts:52 | an update whose id matches nothing changes nothing |
| Ledger.DeleteCanEmptyRegistry | lib/store.ts:57 | the store has no last-currency guard: deleting the only currency empties the list |
| Ledger.Store.constructor | lib/store.ts:42-44 | the default USD currency, no subscriptions, no payments, currency "1" selected |
| Ledger.Store.AddCurrency | lib/store.ts:48 | appends the currency; nothing else changes; references stay valid |
| Ledger.Store.UpdateCurrency | lib/store.ts:50-53 | the currency list becomes the patched list; nothing else changes |
| Ledger.Store.DeleteCurrency | lib/store.ts:55-59 | removes the currency and cascades to its subscriptions; payments untouched; references stay valid |
| Ledger.Store.AddSubscription | lib/store.ts:61 | appends the subscription; nothing else changes |
| Ledger.Store.UpdateSubscription | lib/store.ts:63-66 | the subscription list becomes the patched list; nothing else changes |
| Ledger.Store.DeleteSubscription | lib/store.ts:68-71 | removes the subscription only; its payments stay |
| Ledger.Store.SetSelectedCurrency | lib/store.ts:73 | only the selected currency changes |
| Ledger.Store.AddPayment | components/payment-modal.tsx:84-91 | appends the payment; nothing else changes |
| Ledger.Store.DeletePayment | components/payment-page.tsx:48 | removes the payments with that id; nothing else changes |
| Ledger.Store.ImportData | lib/store.ts:79-83 | replaces both lists, defaulting an empty currency list; never leaves the registry empty |
| Ledger.Store.ExportData | lib/store.ts:85-88 | returns both lists verbatim |
| Ledger.ImportThenExport | lib/store.ts:79-88 | import then export gives the data back when it had currencies, the default currency otherwise |
| MonthlySummary.RateOrOne | components/subscription-summary.tsx:66 | `rate \|\| 1` is never zero and is the rate whenever that is non-zero |
| MonthlySummary.SubTotal | components/subscription-summary.tsx:35 | the bare amount without tax; never less than the amount when the amount and the tax rate are non-negative |
| MonthlySummary.Contribution | components/subscription-summary.tsx:31-37 | nothing for a subscription whose currency is missing |
| MonthlySummary.ContributionConverts | components/subscription-summary.tsx:31-37 | a counted subscription contributes the dollar amount that its currency's rate turns back into its charge |
| MonthlySummary.BaseTotal | components/subscription-summary.tsx:27-39 | a subscription whose currency is missing leaves the dollar total as it was |
| MonthlySummary.BaseTotalNonNegative | components/subscription-summary.tsx:27-39 | with positive rates and non-negative amounts and tax rates the dollar total is non-negative |
| MonthlySummary.TallyStep | components/subscription-summary.tsx:31-45 | one turn of the loop adds a counted subscription's dollars to the total and to its day, and leaves both alone for a missing currency |
| MonthlySummary.InSelected | components/subscription-summary.tsx:48 | unchanged with no display currency; otherwise an amount the display rate turns back into the dollar total |
| MonthlySummary.AddedToDay | components/subscription-summary.tsx:42-45 | the day becomes a key; its entry grows by the amount, or is the amount when new; other days unchanged |
| MonthlySummary.ShownNext | components/subscription-summary.tsx:65-67 | the day's dollars unchanged without a display currency, and zero for a zero day total; `DueOn` gives the rate |
| MonthlySummary.DueOn | components/subscription-summary.tsx:65-67 | nothing when no subscription falls on the day; otherwise the day's dollar total at the display rate, or at 1 when there is no display currency or its rate is 0 |
| MonthlySummary.FindAtLeast | components/subscription-summary.tsx:60 | none exactly when no day reaches the bound; otherwise a day reaching it, the least one in a sorted list |
| MonthlySummary.NextPaymentDay | components/subscription-summary.tsx:60-63 | none exactly when there are no days; otherwise the least day not before today, or the least day overall when none is |
| MonthlySummary.NextDayExamples | components/subscription-summary.tsx:60-63 | a day still ahead is chosen; past all days, the first day of next month |
| MonthlySummary.MinimumExists | components/subscription-summary.tsx:58 | a non-empty set of days has a least element |
| MonthlySummary.TakeLeast | components/subscription-summary.tsx:56-58 | taking the least remaining day keeps the sorted prefix sorted |
| MonthlySummary.SortDays | components/subscription-summary.tsx:56-58 | the days, strictly increasing, and exactly the given set |
| MonthlySummary.Average | components/subscription-summary.tsx:51 | average times count is the total; zero when there are no subscriptions |
| MonthlySummary.AddToDay | components/subscription-summary.tsx:42-45 | the day becomes a key; its entry grows by the amount, or is the amount when it was missing; every other day is unchanged |
| MonthlySummary.AddDay | components/subscription-summary.tsx:41-45 | a subscription whose currency is missing leaves the day map as it was; a counted one adds its payment day to the keys; every other day keeps its amount |
| MonthlySummary.DayMapTotals | components/subscription-summary.tsx:29-45 | the day map holds exactly the payment days of counted subscriptions, each with the dollars due on it |
| MonthlySummary.RecordDay | components/subscription-summary.tsx:42-45 | adding a counted subscription to the day map of those before it gives the day map with it |
| MonthlySummary.TallyByDay | components/subscription-summary.tsx:27-46 | the loop computes the base total and, per recorded day, that day's total |
| MonthlySummary.Calculate | components/subscription-summary.tsx:25-76 | total in the display currency, count, average, next day and the amount due on it |
| MonthlySummary.HitsOnce | components/subscription-summary.tsx:42-45 | over distinct days a day's amount is counted once or not at all |
| MonthlySummary.DaySumsAddUp | components/subscription-summary.tsx:39-45 | the per-day totals add up to the base total |
| MonthlySummary.ZeroDays | components/subscription-summary.tsx:27-28 | with no subscriptions every day total is zero |
| MonthlySummary.MissingCurrencyIgnored | components/subscription-summary.tsx:31-32 | a subscription with a missing currency changes neither the total nor the days |
| MonthlySummary.SwitchDisplayCurrency | components/subscription-summary.tsx:48 | converting back to dollars and into another currency equals converting directly |
| CurrencyBreakdown.SubsIn | components/subscription-summary.tsx:177 | exactly the subscriptions in that currency |
| CurrencyBreakdown.OwnTotal | components/subscription-summary.tsx:180-183 | the `reduce`: the members' tax-inclusive charges added up in list order; it has no contract of its own, and `OwnTotalOfNext` gives its step and `OwnTotalNonNegative` its sign |
| CurrencyBreakdown.RowInSelected | components/subscription-summary.tsx:185-187 | unchanged without a display currency; zero for a zero own total; `PerCurrencyTimesRate` shows the converted rows add up to the dollar total at the display rate |
| CurrencyBreakdown.OwnTotalOfNext | components/subscription-summary.tsx:180-183 | one more subscription adds its charge to its own currency's total and nothing to any other |
| CurrencyBreakdown.OwnTotalNonNegative | components/subscription-summary.tsx:180-183 | with non-negative amounts and tax rates a currency's own total is non-negative |
| CurrencyBreakdown.Breakdown | components/subscription-summary.tsx:176-187 | at most one row per currency |
| CurrencyBreakdown.BreakdownRows | components/subscription-summary.tsx:176-187 | every row is a registry currency with its own total and that total in the display currency |
| CurrencyBreakdown.BreakdownCovers | components/subscription-summary.tsx:178 | a currency has a row exactly when some subscription uses it |
| CurrencyBreakdown.RowsArePerCurrency | components/subscription-summary.tsx:176-187 | the rows' display amounts sum to the per-currency display sum |
| CurrencyBreakdown.PerCurrencyTimesRate | components/subscription-summary.tsx:185-187 | each row converted with `own / rate * selectedRate`, summed, is the per-currency dollar sum times the display rate |
| CurrencyBreakdown.PerCurrencyScaled | components/subscription-summary.tsx:185-187 | the per-currency display sum is the dollar sum shown in the display currency |
| CurrencyBreakdown.ShareIsContribution | components/subscription-summary.tsx:37-186 | with distinct ids a subscription's dollar share is what the card's total counts for it |
| CurrencyBreakdown.PerCurrencyIsBaseTotal | components/subscription-summary.tsx:30-183 | grouping by currency and converting gives the card's dollar total |
| CurrencyBreakdown.PerCurrencyShown | components/subscription-summary.tsx:48-187 | the per-currency display sum is the card's total in the display currency |
| CurrencyBreakdown.BreakdownAddsUpToTotal | components/subscription-summary.tsx:48-187 | the breakdown rows add up to the card's total |
| DebtSummary.DebtInDollars | subscription-summary.tsx:27-37 | the debt loop computes the tax-inclusive dollar total, skipping missing currencies |
| DebtSummary.PaymentInDollars | subscription-summary.tsx:43-50 | nothing when the subscription or its currency is missing |
| DebtSummary.PaymentConverts | subscription-summary.tsx:43-50 | a payment whose subscription and currency are found adds the dollar amount that the currency's rate turns back into the payment |
| DebtSummary.PaidBase | subscription-summary.tsx:40-51 | zero with no payments |
| DebtSummary.PaidInDollars | subscription-summary.tsx:40-51 | the paid loop computes the sum of payments in dollars, skipping orphans |
| DebtSummary.DebtAndPaid | subscription-summary.tsx:25-60 | both figures taken to the display currency |
| DebtSummary.PaidStep | subscription-summary.tsx:42-50 | one more payment adds its dollar value `PaymentInDollars`, which is nothing for an orphaned payment |
| DebtSummary.OrphanPaymentIgnored | subscription-summary.tsx:43-47 | a payment whose subscription or currency is missing is not counted |
| DebtSummary.PaidNeverDecreases | subscription-summary.tsx:49-50 | with positive rates a non-negative payment never lowers the paid figure |
| DebtSummary.PaidNonNegative | subscription-summary.tsx:40-51 | with positive rates and non-negative payments the paid figure is non-negative; zero with none |
| PaymentPage.Round2 | components/payment-page.tsx:33 | `Math.round(x*100)/100` is a whole number of cents within half a cent of x, halves going up (these two facts fix the value) |
| PaymentPage.Round2Idempotent | components/payment-page.tsx:33 | rounding a rounded amount changes nothing |
| PaymentPage.Round2Residue | components/payment-page.tsx:33 | what is left after paying the rounded amount rounds to zero |
| PaymentPage.Round2NonNegative | components/payment-page.tsx:33 | a non-negative amount rounds to a non-negative one |
| PaymentPage.Round2ShiftCents | components/payment-page.tsx:33 | taking whole cents off before rounding is the same as after |
| PaymentPage.PlanTotalIsSubTotal | components/payment-page.tsx:28 | the page's charge equals the summary card's |
| PaymentPage.PlanTotal | components/payment-page.tsx:28 | the bare amount without tax; with tax the amount plus its rate per cent |
| PaymentPage.PaymentsFor | components/payment-page.tsx:29 | exactly the payments against that subscription id |
| PaymentPage.SumAmounts | components/payment-page.tsx:30 | zero for no payments; non-negative when every amount is |
| PaymentPage.PaidTowards | components/payment-page.tsx:29-30 | nothing paid when no payment names the id; non-negative when every amount is |
| PaymentPage.Owed | components/payment-page.tsx:33 | non-negative whole cents; positive exactly when the rounded amount is, and then equal to it |
| PaymentPage.BalanceAfter | components/payment-page.tsx:22-33 | non-negative whole cents; zero for a missing subscription or a missing currency; otherwise the charge less `paid`, rounded half up to cents, or zero when that is not positive |
| PaymentPage.Balance | components/payment-page.tsx:21-34 | non-negative whole cents; zero for a missing subscription or a missing currency; otherwise the charge less the payments against the id, rounded half up to cents, or zero when that is not positive |
| PaymentPage.OwedLowers | components/payment-page.tsx:32-33 | paying whole cents, no more than is owed, lowers what is owed by exactly that much |
| PaymentPage.PaidTowardsAppend | components/payment-page.tsx:29-30 | a new payment adds its amount to its own subscription's paid sum only |
| PaymentPage.OtherPaymentsIgnored | components/payment-page.tsx:29 | payments against other ids leave a balance unchanged |
| PaymentPage.BalanceNearOutstanding | components/payment-page.tsx:28-33 | the balance is within half a cent of charge minus paid, when that is positive |
| PaymentPage.PayingBalanceClears | components/payment-page.tsx:21-34 | paying exactly the balance leaves nothing owed |
| PaymentPage.PaymentLowersBalance | components/payment-page.tsx:21-34 | a whole-cents payment within the balance lowers it by exactly its amount |
| PaymentPage.BalanceAfterRestart | components/payment-page.tsx:44-56 | with no payments a balance is the rounded charge |
| PaymentPage.SubscriptionsWithBalance | components/payment-page.tsx:42 | exactly the subscriptions with a positive balance |
| PaymentPage.TotalDebt | components/payment-page.tsx:36-40 | the balances added up: non-negative, and zero exactly when every subscription's balance is |
| PaymentPage.DebtOver | components/payment-page.tsx:36-40 | the `reduce` over balances in list order; it has no contract of its own, and `DebtOverZero` gives its sign and its zero case |
| PaymentPage.DebtOverZero | components/payment-page.tsx:36-40 | a sum of balances is non-negative and zero exactly when each balance is |
| PaymentPage.NoDebtIffNothingPending | components/payment-page.tsx:36-42 | total debt is zero exactly when no subscription is listed as owing |
| PaymentPage.RestartCycle | components/payment-page.tsx:44-56 | confirmed: every payment deleted one by one, none left; declined: nothing changes |
| PaymentPage.PayAll | components/payment-page.tsx:116-123 | appends one full payment of the balance; the balance is then zero |
| PaymentEntry.Entry | components/payment-modal.tsx:48-91 | recorded exactly when the amount text is non-empty and 0 < amount <= balance; each guard's rejection; remaining balance and partial flag |
| PaymentEntry.DateGuardCountsSlashes | components/payment-modal.tsx:41-42 | the three-part guard holds exactly when the entry has two slashes |
| PaymentEntry.RemainderMatchesPage | components/payment-modal.tsx:81-82 | a cents payment's stored remaining balance is the page's balance afterwards |
| PaymentEntry.PaymentModal.constructor | components/payment-modal.tsx:26-28 | empty amount fields, today's date |
| PaymentEntry.PaymentModal.OnAmountInput | components/payment-modal.tsx:140 | the display text is what was typed |
| PaymentEntry.PaymentModal.OnDateInput | components/payment-modal.tsx:40-46 | a text without three parts keeps the date; three parts take the date they denote, and three parts that denote no date (the `toISOString` RangeError) keep the stored one |
| PaymentEntry.PaymentModal.HandlePayment | components/payment-modal.tsx:48-103 | outcome as Entry; a rejection changes nothing; a recording appends the payment and resets the form |
| PaymentHistory.Insert | components/payment-history-page.tsx:23 | inserting adds exactly that payment |
| PaymentHistory.InsertKeepsOrder | components/payment-history-page.tsx:23 | inserting into a newest-first list keeps it newest first |
| PaymentHistory.SortNewestFirst | components/payment-history-page.tsx:23 | newest first, and a permutation of the payments |
| PaymentHistory.InsertOldest | components/payment-history-page.tsx:23 | a payment no newer than all goes last |
| PaymentHistory.SortKeepsSorted | components/payment-history-page.tsx:23 | a newest-first list is left exactly as it is |
| PaymentHistory.SortIdempotent | components/payment-history-page.tsx:23 | sorting twice equals sorting once |
| PaymentHistory.SubscriptionName | components/payment-history-page.tsx:14-16 | never empty; "Unknown" for a missing subscription or an empty name; otherwise the name of the first subscription with that id |
| PaymentHistory.SubscriptionCurrency | components/payment-history-page.tsx:18-21 | none for a missing subscription; otherwise the first registry currency whose id is the currency id of the first subscription with that id, none when there is no such currency |
| PaymentHistory.ShownBalance | components/payment-history-page.tsx:52-54 | a balance is shown exactly for a partial payment, and it is the stored snapshot |
| PaymentHistory.PaidInFullShowsNoBalance | components/payment-page.tsx:117-123 | a "pay all" record reads as not partial and shows no balance |
| CurrencyAdmin.Upper | components/currency-manager.tsx:39 | same length, no lowercase letters left, other characters unchanged |
| CurrencyAdmin.UpperIdempotent | components/currency-manager.tsx:39 | uppercasing twice equals once |
| CurrencyAdmin.Submitted | components/currency-manager.tsx:38-45 | the patch carries the uppercased code and the chosen separators, and no id |
| CurrencyAdmin.NewCurrency | components/currency-manager.tsx:50-53 | the new currency has the new id and every submitted field |
| CurrencyAdmin.ResubmitUnchanged | components/currency-manager.tsx:64-76 | editing and submitting the form untouched leaves the currency as it was |
| CurrencyAdmin.Preview | components/currency-manager.tsx:197-202 | the example line is exactly what `formatCurrency` gives for 1234.56 with the form's symbol and separators |
| CurrencyAdmin.PreviewLayout | components/currency-manager.tsx:197-202 | the preview is symbol, "1", separator, "234", decimal separator, "56" |
| CurrencyAdmin.NoneOptionShowsLiterally | components/currency-manager.tsx:175 | as written, "(ninguno)" puts "none" between the digit groups |
| CurrencyAdmin.NoneGroupsThousands | lib/utils.ts:15-20 | 1234 with the separator "none" is "$1none234.00" |
| CurrencyAdmin.ThousandValue | components/currency-manager.tsx:172-175 | as written every choice stores a non-empty separator; one character exactly for the three real separators |
| CurrencyAdmin.SeparatorLabel | components/currency-manager.tsx:240 | never blank: the separator itself, or "ninguno" for "" |
| CurrencyAdmin.IntendedNoneOptionGroupsNothing | components/currency-manager.tsx:240 | with "" stored, no grouping happens and the label reads "ninguno" |
| CurrencyAdmin.DeleteLeavesOne | components/currency-manager.tsx:78-86 | with distinct ids, deleting from two or more leaves at least one |
| CurrencyAdmin.CurrencyManager.constructor | components/currency-manager.tsx:24-33 | closed, not editing, the empty form |
| CurrencyAdmin.CurrencyManager.ResetForm | components/currency-manager.tsx:59-62 | the empty form, not editing |
| CurrencyAdmin.CurrencyManager.HandleEdit | components/currency-manager.tsx:64-76 | the form holds the currency's fields; the dialog is open |
| CurrencyAdmin.CurrencyManager.HandleSubmit | components/currency-manager.tsx:35-57 | update the edited currency or append a new one; close and clear |
| CurrencyAdmin.CurrencyManager.HandleDelete | components/currency-manager.tsx:78-86 | refused exactly when one currency is left; otherwise delete with cascade when confirmed; with distinct ids, never leaves a non-empty registry empty |
| CurrencyAdmin.DuplicateIdsCanEmpty | lib/store.ts:57 | two currencies sharing an id, as the import check lets through, are both removed by one delete, so the one-currency guard does not keep the registry non-empty |
| SubscriptionAdmin.CalculateTotal | components/subscription-manager.tsx:95-99 | the bare amount without tax; with tax the excess is amount times rate/100 |
| SubscriptionAdmin.TotalAgreesWithSummary | components/subscription-manager.tsx:95-99 | the list's total equals the summary card's charge |
| SubscriptionAdmin.TotalAtLeastAmount | components/subscription-manager.tsx:95-99 | with non-negative amount and rate the total is at least the amount |
| SubscriptionAdmin.FormatAmount | components/subscription-manager.tsx:101-106 | with a currency, exactly what `formatCurrency` gives with its symbol and separators; without one, the bare `toFixed(2)` text |
| SubscriptionAdmin.BlankForm | components/subscription-manager.tsx:60-70 | a blank form on the first currency, or none |
| SubscriptionAdmin.Submitted | components/subscription-manager.tsx:38-45 | the patch has no id; the rate is 0 without tax and the typed rate with it |
| SubscriptionAdmin.NewSubscription | components/subscription-manager.tsx:50-53 | the new subscription has the new id and every submitted field |
| SubscriptionAdmin.SavedWithoutTaxChargesAmount | components/subscription-manager.tsx:44 | a subscription saved without tax has rate 0 and is charged its amount |
| SubscriptionAdmin.SubscriptionManager.constructor | components/subscription-manager.tsx:26-33 | closed, not editing, a blank form |
| SubscriptionAdmin.SubscriptionManager.ResetForm | components/subscription-manager.tsx:60-70 | a blank form, not editing |
| SubscriptionAdmin.SubscriptionManager.HandleEdit | components/subscription-manager.tsx:72-83 | the form holds the subscription's fields; a rate only when taxed |
| SubscriptionAdmin.SubscriptionManager.HandleSubmit | components/subscription-manager.tsx:35-58 | update the edited subscription or append a new one; close and reset |
| SubscriptionAdmin.SubscriptionManager.HandleDelete | components/subscription-manager.tsx:85-89 | delete only when confirmed; nothing else changes |
| ImportExport.Message | components/data-manager.tsx:66-93 | every message is non-empty, and both structure checks report "Formato inválido: falta el array de …" |
| ImportExport.CurrencyError | components/data-manager.tsx:74-80 | no error exactly when the currency is well formed field by field; the currency error exactly when a text field is missing or empty; the rate error exactly when the text fields are present and the rate is missing or not positive |
| ImportExport.SubscriptionError | components/data-manager.tsx:84-93 | no error exactly when the subscription is well formed field by field; the subscription error exactly when a text field is missing or empty; the amount error exactly when those pass and the amount is missing or negative; the day error exactly when those pass and the day is missing or outside 1-31 |
| ImportExport.ValidationError | components/data-manager.tsx:66-94 | a missing currency list, then a missing subscription list, is reported first; with both lists, no error exactly when every record passes its checks |
| ImportExport.MessagesIdentifyTheCheck | components/data-manager.tsx:66-93 | different failed checks raise different messages |
| ImportExport.FirstError | components/data-manager.tsx:74-94 | no error exactly when every element passes |
| ImportExport.FirstErrorIsFirst | components/data-manager.tsx:74-94 | the reported error is an element's, and every earlier element passed |
| ImportExport.AcceptedIffAcceptable | components/data-manager.tsx:66-94 | the import goes through exactly when both lists are present and every record is well formed |
| ImportExport.CurrencyErrorsFirst | components/data-manager.tsx:73-81 | a bad currency is reported, whatever the subscriptions hold |
| ImportExport.CrossReferenceNotChecked | components/data-manager.tsx:83-94 | a subscription naming an unknown currency is accepted |
| ImportExport.FractionalDayAccepted | components/data-manager.tsx:91 | a fractional day in range passes |
| ImportExport.ToAppData | components/data-manager.tsx:97 | the accepted records, one for one, with positive rates |
| ImportExport.Validate | components/data-manager.tsx:66-94 | the loops stop at the first failing check |
| ImportExport.DataManager.constructor | components/data-manager.tsx:23-24 | closed, no error |
| ImportExport.DataManager.HandleImport | components/data-manager.tsx:53-116 | no file: nothing; read or parse failure, a check throwing on a `null` snapshot or record, or a failed check: that message with the store and the dialog left as they were; otherwise the data imported and the dialog closed |

## Left out

- Persistence: the store's `persist` to local storage, the language and the theme are not modelled.
- File I/O: the JSON text and the `FileReader` are not modelled. What the reader and the parser deliver is an input (`FileResult`).
- Parsing: `parseNumberByCurrency` and the browser's number parsing are not modelled. The parsed number is an input, and NaN is not modelled.
- Floating point: amounts are exact reals. `toFixed` and `formatCurrency` work on whole cents, so binary rounding artefacts are not captured.
- Clock and calendar: dates are day numbers, and today's day of month is an input. `new Date()`, `formatDateForDisplay` and the "dd/mm/yyyy" to ISO conversion are not modelled (`OnDateInput` takes the denoted date as an input, `None` when the three parts denote no date).
- Ids and dialogs: ids from `Date.now()` and the answers to `confirm` are inputs.
- Toasts and markup: the toasts (including the success toast's counts), rendering and translations are not modelled.
- CurrencyAdmin.Upper: covers ASCII letters only, not Unicode `toUpperCase`.
- Zero rates: the dollar conversions require `NonzeroRates`. A zero rate would divide by zero in the source (Infinity or NaN), and this is not modelled.
- Replacement patterns: a `$` pattern inside a thousands separator, which `replace` would interpret, is not modelled.
- Import field types: a field the checks do not examine (the separators, `hasTax`, `taxRate`) is assumed well typed. A truthy non-string text field is modelled as present.
- Null snapshots and records: `RawData` cannot hold `null`. A check that reads a field of `null` throws a TypeError; `FileResult.CheckThrew` carries its runtime message for a throw that comes before any failed check, and the message text itself is the browser's.
- MonthlySummary.Calculate: the summary card's `formatAmount` (components/subscription-summary.tsx:18-23) with its "$" fallback is not modelled. `FormatCurrency` covers the layout.
- PaymentHistory.SortNewestFirst: stability (equal dates keep their order) holds by construction, but it is not proved.
- Payment ledger: lib/store.ts declares no payment list. The payment ledger (`payments`, `addPayment`, `deletePayment`) is modelled from its uses in the payment page, the dialog and the debt summary.

## Findings

| source | as written | input that shows it | evidently intended | confidence | as-written member | corrected member |
|---|---|---|---|---|---|---|
| components/currency-manager.tsx:175 | the "(ninguno)" thousands option stores the text "none" | choose "(ninguno)": 1234 is formatted "$1none234.00", the preview reads "$1none234.56", the list label reads "none" | store "" so nothing is inserted, as the label at line 240 expects ("" shows as "ninguno") | likely; not executed | CurrencyAdmin.NoneOptionShowsLiterally | CurrencyAdmin.IntendedNoneOptionGroupsNothing |
