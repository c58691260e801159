/**
 * The payment history (components/payment-history-page.tsx): every
 * payment, newest first, with its subscription's name and currency and,
 * for a partial payment, what was left to pay.
 *
 * Sorting works on a copy, so the functions here take the payment list by
 * value and the store's own list is never reordered.
 */
module PaymentHistory {
  import opened Types

  /** Each payment is no older than the ones after it. */
  predicate NewestFirst(ps: seq<Payment>) {
    forall i, j :: 0 <= i < j < |ps| ==> ps[i].date >= ps[j].date
  }

  /** Places `p` after every leading payment at least as new, so ties keep their order. */
  function Insert(p: Payment, s: seq<Payment>): (r: seq<Payment>)
    ensures multiset(r) == multiset(s) + multiset{p}
    decreases |s|
  {
    if |s| == 0 then [p]
    else if s[0].date >= p.date then
      assert s == [s[0]] + s[1..];
      [s[0]] + Insert(p, s[1..])
    else
      [p] + s
  }

  /** Inserting into a newest-first list keeps it newest first. */
  lemma {:induction false} InsertKeepsOrder(p: Payment, s: seq<Payment>)
    requires NewestFirst(s)
    ensures NewestFirst(Insert(p, s))
    decreases |s|
  {
    if |s| == 0 {
    } else if s[0].date >= p.date {
      InsertKeepsOrder(p, s[1..]);
      HeadIsNewest(s);
      InsertMembers(p, s[1..]);
      ConsNewest(s[0], Insert(p, s[1..]));
    } else {
      HeadIsNewest(s);
      ConsNewest(p, s);
    }
  }

  /** The first payment of a newest-first list is at least as new as all the others. */
  lemma HeadIsNewest(s: seq<Payment>)
    requires NewestFirst(s) && |s| > 0
    ensures NewestFirst(s[1..])
    ensures forall x :: x in s ==> s[0].date >= x.date
  {
  }

  /** Insertion adds the one payment and nothing else. */
  lemma InsertMembers(p: Payment, s: seq<Payment>)
    ensures forall x :: x in Insert(p, s) ==> x == p || x in s
  {
    forall x | x in Insert(p, s)
      ensures x == p || x in s
    {
      assert x in multiset(Insert(p, s));
    }
  }

  /** A payment at least as new as a newest-first list can go in front of it. */
  lemma ConsNewest(h: Payment, r: seq<Payment>)
    requires NewestFirst(r)
    requires forall x :: x in r ==> h.date >= x.date
    ensures NewestFirst([h] + r)
  {
    var t := [h] + r;
    forall i, j | 0 <= i < j < |t|
      ensures t[i].date >= t[j].date
    {
      assert t[j] == r[j - 1];
      if i > 0 {
        assert t[i] == r[i - 1];
      }
    }
  }

  /** Line 23: the payments ordered by date, newest first (a stable sort on a copy). */
  function SortNewestFirst(ps: seq<Payment>): (r: seq<Payment>)
    ensures NewestFirst(r)
    ensures multiset(r) == multiset(ps)
    decreases |ps|
  {
    if |ps| == 0 then []
    else
      var init := ps[..|ps| - 1];
      assert ps == init + [ps[|ps| - 1]];
      InsertKeepsOrder(ps[|ps| - 1], SortNewestFirst(init));
      Insert(ps[|ps| - 1], SortNewestFirst(init))
  }

  /** A payment no newer than any in a sorted list goes to its end. */
  lemma {:induction false} InsertOldest(p: Payment, s: seq<Payment>)
    requires forall i :: 0 <= i < |s| ==> s[i].date >= p.date
    ensures Insert(p, s) == s + [p]
    decreases |s|
  {
    if |s| > 0 {
      assert s[0].date >= p.date;
      InsertOldest(p, s[1..]);
      ConsAppend(s, p);
    }
  }

  lemma ConsAppend(s: seq<Payment>, p: Payment)
    requires |s| > 0
    ensures [s[0]] + (s[1..] + [p]) == s + [p]
  {
  }

  /** A list already newest first is left exactly as it is. */
  lemma {:induction false} SortKeepsSorted(ps: seq<Payment>)
    requires NewestFirst(ps)
    ensures SortNewestFirst(ps) == ps
    decreases |ps|
  {
    if |ps| > 0 {
      var init := ps[..|ps| - 1];
      SortKeepsSorted(init);
      InsertOldest(ps[|ps| - 1], init);
      assert init + [ps[|ps| - 1]] == ps;
    }
  }

  /** Sorting twice gives what sorting once gave. */
  lemma SortIdempotent(ps: seq<Payment>)
    ensures SortNewestFirst(SortNewestFirst(ps)) == SortNewestFirst(ps)
  {
    SortKeepsSorted(SortNewestFirst(ps));
  }

  /** Lines 14-16: the subscription's name, or "Unknown" when it is missing or its name is empty. */
  function SubscriptionName(subs: seq<Subscription>, subscriptionId: string): (name: string)
    ensures name != ""
    ensures FindSubscription(subs, subscriptionId).None? ==> name == "Unknown"
    ensures FindSubscription(subs, subscriptionId).Some? ==>
              name == (if FindSubscription(subs, subscriptionId).value.name != "" then FindSubscription(subs, subscriptionId).value.name else "Unknown")
    ensures name != "Unknown" ==> exists s :: s in subs && s.id == subscriptionId && s.name == name
  {
    var found := FindSubscription(subs, subscriptionId);
    if found.Some? && found.value.name != "" then found.value.name else "Unknown"
  }

  /** Lines 18-21: the currency of the payment's subscription; none when the subscription is missing. */
  function SubscriptionCurrency(subs: seq<Subscription>, cs: seq<Currency>, subscriptionId: string): (r: Option<Currency>)
    ensures FindSubscription(subs, subscriptionId).None? ==> r.None?
    ensures FindSubscription(subs, subscriptionId).Some? ==> r == FindCurrency(cs, FindSubscription(subs, subscriptionId).value.currencyId)
    ensures r.Some? ==> r.value in cs &&
                        exists s :: s in subs && s.id == subscriptionId && s.currencyId == r.value.id
  {
    var found := FindSubscription(subs, subscriptionId);
    if found.None? then None else FindCurrency(cs, found.value.currencyId)
  }

  /** Lines 52-54: the balance left after the payment, shown only for a partial one. */
  function ShownBalance(p: Payment): (r: Option<real>)
    ensures r.Some? <==> p.IsPartial()
    ensures r.Some? ==> r.value == p.kind.remainingBalance
  {
    if p.IsPartial() then Some(p.kind.remainingBalance) else None
  }

  /** A "Pay All" payment carries no partial flag, so it reads as a full payment with no balance. */
  lemma PaidInFullShowsNoBalance(p: Payment)
    requires p.kind == PaidInFull
    ensures ShownBalance(p).None? && !p.IsPartial()
  {
  }
}
