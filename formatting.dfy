/**
 * `formatCurrency` (lib/utils.ts): an amount laid out as symbol, integer part
 * grouped in threes with the currency's thousand separator, decimal separator,
 * and exactly two fraction digits.
 *
 * The amount is an integer count of cents: `toFixed(2)` on a binary float is
 * not modelled, only the text it produces for a value with two decimals.
 */
module Formatting {
  import opened Text

  const DefaultThousandSeparator: string := ","
  const DefaultDecimalSeparator: string := "."

  predicate IsDigit(ch: char) {
    '0' <= ch <= '9'
  }

  /** The regular-expression class `\w`. */
  predicate IsWordChar(ch: char) {
    IsDigit(ch) || ('a' <= ch <= 'z') || ('A' <= ch <= 'Z') || ch == '_'
  }

  predicate AllDigits(s: string) {
    forall i :: 0 <= i < |s| ==> IsDigit(s[i])
  }

  function Abs(x: int): nat {
    if x < 0 then -x else x
  }

  function DigitChar(d: nat): (ch: char)
    requires d < 10
    ensures IsDigit(ch) && ch as int == '0' as int + d
  {
    "0123456789"[d]
  }

  function DigitValue(ch: char): nat
    requires IsDigit(ch)
  {
    ch as int - '0' as int
  }

  /** Decimal representation of a natural number, without leading zeros. */
  function NatDigits(n: nat): (s: string)
    ensures |s| >= 1 && AllDigits(s)
    decreases n
  {
    if n < 10 then [DigitChar(n)] else NatDigits(n / 10) + [DigitChar(n % 10)]
  }

  /** The number a string of decimal digits denotes. */
  function DigitsValue(s: string): nat
    requires AllDigits(s)
    decreases |s|
  {
    if |s| == 0 then 0 else 10 * DigitsValue(s[..|s| - 1]) + DigitValue(s[|s| - 1])
  }

  /** NatDigits writes exactly the number it is given, with no leading zero. */
  lemma {:induction false} NatDigitsValue(n: nat)
    ensures DigitsValue(NatDigits(n)) == n
    ensures n > 0 ==> NatDigits(n)[0] != '0'
    decreases n
  {
    var s := NatDigits(n);
    if n < 10 {
      assert s[..0] == "";
    } else {
      NatDigitsValue(n / 10);
      assert s[..|s| - 1] == NatDigits(n / 10);
    }
  }

  /** An integer part below one thousand has at most three digits. */
  lemma {:induction false} NatDigitsShort(n: nat)
    requires n < 1000
    ensures |NatDigits(n)| <= 3
  {
    if n >= 10 {
      if n / 10 >= 10 {
        assert n / 100 < 10;
        assert |NatDigits(n / 10)| == |NatDigits(n / 100)| + 1;
      }
    }
  }

  /** `parts[0]` of `value.toFixed(2)`: the sign, then the whole units. */
  function IntegerText(cents: int): (s: string)
    ensures |s| >= 1 && (s[0] == '-' <==> cents < 0)
    ensures cents >= 0 ==> AllDigits(s) && DigitsValue(s) == cents / 100
    ensures cents < 0 ==> AllDigits(s[1..]) && DigitsValue(s[1..]) == -cents / 100
  {
    NatDigitsValue(Abs(cents) / 100);
    DropSign(NatDigits(Abs(cents) / 100));
    (if cents < 0 then "-" else "") + NatDigits(Abs(cents) / 100)
  }

  lemma DropSign(d: string)
    ensures ("-" + d)[1..] == d && ("" + d) == d
  {
  }

  /** `parts[1]` of `value.toFixed(2)`: always two digits. */
  function FractionText(cents: int): (s: string)
    ensures |s| == 2 && AllDigits(s)
    ensures DigitsValue(s) == Abs(cents) % 100
  {
    var f := Abs(cents) % 100;
    var s := [DigitChar(f / 10), DigitChar(f % 10)];
    assert s[..1][..0] == [];
    assert DigitsValue(s[..1]) == f / 10;
    assert DigitsValue(s) == 10 * (f / 10) + f % 10;
    s
  }

  /** `value.toFixed(2)` for a value with at most two decimals. */
  function ToFixed2(cents: int): (s: string)
    ensures |s| >= 4 && s[|s| - 3] == '.' && '.' !in s[..|s| - 3]
    ensures s[..|s| - 3] == IntegerText(cents)
    ensures AllDigits(s[|s| - 2..]) && DigitsValue(s[|s| - 2..]) == Abs(cents) % 100
  {
    var i := IntegerText(cents);
    NoPointInInteger(cents);
    PointLayout(i, FractionText(cents));
    i + "." + FractionText(cents)
  }

  lemma NoPointInInteger(cents: int)
    ensures '.' !in IntegerText(cents)
  {
  }

  lemma PointLayout(i: string, f: string)
    requires '.' !in i && |i| >= 1 && |f| == 2
    ensures var s := i + "." + f;
            |s| >= 4 && s[|s| - 3] == '.' && s[..|s| - 3] == i && s[|s| - 2..] == f
  {
    var s := i + "." + f;
    assert s[..|s| - 3] == i;
    assert s[|s| - 2..] == f;
  }

  /** Splitting the fixed-point text on "." gives the integer and the fraction texts. */
  lemma FixedParts(cents: int)
    ensures Split(ToFixed2(cents), '.') == [IntegerText(cents), FractionText(cents)]
  {
    var i, f := IntegerText(cents), FractionText(cents);
    assert forall k :: 0 <= k < |i| ==> i[k] == '-' || IsDigit(i[k]);
    assert '.' !in i;
    assert '.' !in f;
    assert ToFixed2(cents) == i + ['.'] + f;
    SplitTwo(i, '.', f);
  }

  // ---------------------------------------------------------------------
  // The regular expression /\B(?=(\d{3})+(?!\d))/g, position by position.
  // ---------------------------------------------------------------------

  /** Length of the run of digits that starts at position k. */
  function DigitRun(s: string, k: nat): (n: nat)
    requires k <= |s|
    ensures k + n <= |s|
    ensures forall i :: k <= i < k + n ==> IsDigit(s[i])
    ensures k + n == |s| || !IsDigit(s[k + n])
    decreases |s| - k
  {
    if k < |s| && IsDigit(s[k]) then 1 + DigitRun(s, k + 1) else 0
  }

  /** `\B` at position k: the characters on both sides are alike in being word characters. */
  predicate NotWordBoundary(s: string, k: nat)
    requires k <= |s|
  {
    (k > 0 && IsWordChar(s[k - 1])) == (k < |s| && IsWordChar(s[k]))
  }

  /** `(?=(\d{3})+(?!\d))` at position k, computed from the length of the digit run. */
  predicate GroupsAhead(s: string, k: nat)
    requires k <= |s|
  {
    var n := DigitRun(s, k);
    n > 0 && n % 3 == 0
  }

  /** m groups of three digits start at k and no digit follows them. */
  ghost predicate GroupsEndAt(s: string, k: nat, m: nat) {
    && 1 <= m
    && k + 3 * m <= |s|
    && (forall i :: k <= i < k + 3 * m ==> IsDigit(s[i]))
    && (k + 3 * m == |s| || !IsDigit(s[k + 3 * m]))
  }

  /** The computed lookahead is the regular expression's: some number of digit triples ends the run. */
  lemma LookaheadMeaning(s: string, k: nat)
    requires k <= |s|
    ensures GroupsAhead(s, k) <==> exists m :: GroupsEndAt(s, k, m)
  {
    var n := DigitRun(s, k);
    if GroupsAhead(s, k) {
      assert GroupsEndAt(s, k, n / 3);
    }
    if m: nat :| GroupsEndAt(s, k, m) {
      assert n == 3 * m;
    }
  }

  predicate MatchAt(s: string, k: nat)
    requires k <= |s|
  {
    NotWordBoundary(s, k) && GroupsAhead(s, k)
  }

  /** The text from position k on, with `sep` put at every position the pattern matches. */
  function ReplaceFrom(s: string, sep: string, k: nat): (r: string)
    requires k <= |s|
    ensures |r| >= |s| - k
    ensures sep == "" ==> r == s[k..]
    decreases |s| - k
  {
    var here := if MatchAt(s, k) then sep else "";
    if k == |s| then here else here + [s[k]] + ReplaceFrom(s, sep, k + 1)
  }

  /** `s.replace(/\B(?=(\d{3})+(?!\d))/g, sep)`. */
  function InsertThousands(s: string, sep: string): (r: string)
    ensures |r| >= |s|
    ensures sep == "" ==> r == s
  {
    ReplaceFrom(s, sep, 0)
  }

  // ---------------------------------------------------------------------
  // Reference: digit groups of three, counted from the right.
  // ---------------------------------------------------------------------

  /** The intended grouping: the last three digits are split off behind a separator, repeatedly. */
  function GroupDigits(d: string, sep: string): string
    decreases |d|
  {
    if |d| <= 3 then d else GroupDigits(d[..|d| - 3], sep) + sep + d[|d| - 3..]
  }

  /** The same grouping read left to right, for digits that are not the first one. */
  function Tail(t: string, sep: string): string
    decreases |t|
  {
    if |t| == 0 then "" else (if |t| % 3 == 0 then sep else "") + [t[0]] + Tail(t[1..], sep)
  }

  lemma TailShort(t: string, sep: string)
    requires |t| <= 2
    ensures Tail(t, sep) == t
  {
    if |t| == 1 {
      assert Tail(t, sep) == [t[0]] + Tail(t[1..], sep);
    } else if |t| == 2 {
      assert Tail(t[1..], sep) == [t[1]];
      assert Tail(t, sep) == [t[0]] + [t[1]];
    }
  }

  /** One step of Tail: a separator when a multiple of three digits remains, then the digit. */
  lemma TailCons(t: string, sep: string)
    requires |t| > 0
    ensures Tail(t, sep) == (if |t| % 3 == 0 then sep else "") + ([t[0]] + Tail(t[1..], sep))
  {
  }

  /** A lone group of three digits gets its separator in front. */
  lemma TailOfGroup(u: string, sep: string)
    requires |u| == 3
    ensures Tail(u, sep) == sep + u
  {
    TailShort(u[1..], sep);
    TailCons(u, sep);
    assert [u[0]] + u[1..] == u;
  }

  lemma Regroup(pre: string, ch: char, rest: string, sep: string, u: string)
    ensures pre + ([ch] + (rest + sep + u)) == pre + ([ch] + rest) + sep + u
  {
  }

  lemma {:induction false} TailAppend(t: string, u: string, sep: string)
    requires |u| == 3
    ensures Tail(t + u, sep) == Tail(t, sep) + sep + u
    decreases |t|
  {
    if |t| == 0 {
      assert t + u == u;
      TailOfGroup(u, sep);
    } else {
      var w := t + u;
      assert w[0] == t[0] && w[1..] == t[1..] + u;
      assert |w| % 3 == |t| % 3;
      var pre := if |t| % 3 == 0 then sep else "";
      var rest := Tail(t[1..], sep);
      TailCons(w, sep);
      TailCons(t, sep);
      TailAppend(t[1..], u, sep);
      Regroup(pre, t[0], rest, sep, u);
    }
  }

  lemma {:induction false} GroupedFromLeft(d: string, sep: string)
    requires |d| >= 1
    ensures GroupDigits(d, sep) == [d[0]] + Tail(d[1..], sep)
    decreases |d|
  {
    if |d| <= 3 {
      TailShort(d[1..], sep);
      assert [d[0]] + d[1..] == d;
    } else {
      var head, u := d[..|d| - 3], d[|d| - 3..];
      GroupedFromLeft(head, sep);
      TailAppend(head[1..], u, sep);
      SplitLastGroup(d);
      Assoc([d[0]], Tail(head[1..], sep), sep, u);
    }
  }

  /** The digits after the first are those of the head, then the last group. */
  lemma SplitLastGroup(d: string)
    requires |d| > 3
    ensures d[..|d| - 3][0] == d[0] && d[1..] == d[..|d| - 3][1..] + d[|d| - 3..]
  {
  }

  lemma Assoc(a: string, b: string, c: string, e: string)
    ensures a + b + c + e == a + (b + c + e)
  {
  }

  /** All digits from k to the end: the run is the whole rest. */
  lemma DigitRunToEnd(s: string, k: nat)
    requires k <= |s| && forall i :: k <= i < |s| ==> IsDigit(s[i])
    ensures DigitRun(s, k) == |s| - k
  {
  }

  /** Inside a digit run that follows a word character, the pattern matches where a multiple of three digits remains. */
  lemma MatchInDigits(s: string, k: nat)
    requires 1 <= k < |s| && IsWordChar(s[k - 1])
    requires forall i :: k <= i < |s| ==> IsDigit(s[i])
    ensures MatchAt(s, k) <==> (|s| - k) % 3 == 0
  {
    DigitRunToEnd(s, k);
  }

  /** One step of the replacement: the separator if the pattern matches here, then the character. */
  lemma ReplaceStep(s: string, sep: string, k: nat)
    requires k < |s|
    ensures ReplaceFrom(s, sep, k) == (if MatchAt(s, k) then sep else "") + ([s[k]] + ReplaceFrom(s, sep, k + 1))
  {
  }

  /** Dropping the first character of the rest of s from k. */
  lemma SliceStep(s: string, k: nat)
    requires k < |s|
    ensures |s[k..]| > 0 && s[k..][0] == s[k] && s[k..][1..] == s[k + 1..]
  {
  }

  /** On a digit run that follows a word character, the pattern places separators as Tail does. */
  lemma {:induction false} ReplaceDigitSuffix(s: string, sep: string, k: nat)
    requires 1 <= k <= |s| && IsWordChar(s[k - 1])
    requires forall i :: k <= i < |s| ==> IsDigit(s[i])
    ensures ReplaceFrom(s, sep, k) == Tail(s[k..], sep)
    decreases |s| - k
  {
    if k == |s| {
      DigitRunToEnd(s, k);
    } else {
      MatchInDigits(s, k);
      ReplaceDigitSuffix(s, sep, k + 1);
      ReplaceStep(s, sep, k);
      SliceStep(s, k);
      TailCons(s[k..], sep);
    }
  }

  /** The regular expression groups a plain digit string as the reference does. */
  lemma InsertThousandsDigits(d: string, sep: string)
    requires |d| >= 1 && AllDigits(d)
    ensures InsertThousands(d, sep) == GroupDigits(d, sep)
  {
    assert !MatchAt(d, 0);
    ReplaceDigitSuffix(d, sep, 1);
    GroupedFromLeft(d, sep);
  }

  /** After a minus sign the pattern never matches, so the sign is never followed by a separator. */
  lemma InsertThousandsSigned(d: string, sep: string)
    requires |d| >= 1 && AllDigits(d)
    ensures InsertThousands("-" + d, sep) == "-" + GroupDigits(d, sep)
  {
    var s := "-" + d;
    assert DigitRun(s, 0) == 0;
    assert !MatchAt(s, 0);
    assert !MatchAt(s, 1);
    ReplaceDigitSuffix(s, sep, 2);
    assert s[2..] == d[1..];
    assert ReplaceFrom(s, sep, 1) == [d[0]] + Tail(d[1..], sep);
    assert ReplaceFrom(s, sep, 0) == ['-'] + ReplaceFrom(s, sep, 1);
    GroupedFromLeft(d, sep);
  }

  /** The integer part of `formatCurrency` is the sign and the grouped whole units. */
  lemma IntegerPartGrouped(cents: int, sep: string)
    ensures InsertThousands(IntegerText(cents), sep)
         == (if cents < 0 then "-" else "") + GroupDigits(NatDigits(Abs(cents) / 100), sep)
  {
    var d := NatDigits(Abs(cents) / 100);
    if cents < 0 {
      InsertThousandsSigned(d, sep);
    } else {
      assert IntegerText(cents) == d;
      InsertThousandsDigits(d, sep);
    }
  }

  /**
   * `formatCurrency(value, symbol, thousandSeparator, decimalSeparator)`:
   * symbol, sign, the whole units grouped by threes from the right, the
   * decimal separator and exactly two fraction digits.
   */
  function FormatCurrency(cents: int, symbol: string,
                          thousandSeparator: string := DefaultThousandSeparator,
                          decimalSeparator: string := DefaultDecimalSeparator): (r: string)
    ensures r == symbol + (if cents < 0 then "-" else "")
                 + GroupDigits(NatDigits(Abs(cents) / 100), thousandSeparator)
                 + decimalSeparator + FractionText(cents)
  {
    FixedParts(cents);
    IntegerPartGrouped(cents, thousandSeparator);
    Nest(symbol, if cents < 0 then "-" else "", GroupDigits(NatDigits(Abs(cents) / 100), thousandSeparator));
    var parts := Split(ToFixed2(cents), '.');
    symbol + InsertThousands(parts[0], thousandSeparator) + decimalSeparator + parts[1]
  }

  lemma Nest(a: string, b: string, c: string)
    ensures a + (b + c) == a + b + c
  {
  }

  // ---------------------------------------------------------------------
  // Properties of the grouping.
  // ---------------------------------------------------------------------

  /** n digits receive exactly (n - 1) / 3 separators, each copied whole. */
  lemma {:induction false} GroupedLength(d: string, sep: string)
    requires |d| >= 1
    ensures |GroupDigits(d, sep)| == |d| + ((|d| - 1) / 3) * |sep|
    decreases |d|
  {
    if |d| > 3 {
      GroupedLength(d[..|d| - 3], sep);
      assert |GroupDigits(d, sep)| == |GroupDigits(d[..|d| - 3], sep)| + |sep| + 3;
      SeparatorCount(|d|, |sep|);
    }
  }

  /** Three more digits bring one more separator. */
  lemma SeparatorCount(n: int, w: int)
    requires n > 3
    ensures (n - 3) + ((n - 4) / 3) * w + w + 3 == n + ((n - 1) / 3) * w
  {
    var q := (n - 4) / 3;
    assert (n - 1) / 3 == q + 1;
    assert (q + 1) * w == q * w + w;
  }

  /** The grouped text starts with the first digit: no separator at the start. */
  lemma GroupedStartsWithDigit(d: string, sep: string)
    requires |d| >= 1
    ensures |GroupDigits(d, sep)| >= 1 && GroupDigits(d, sep)[0] == d[0]
  {
    GroupedFromLeft(d, sep);
  }

  /** With an empty separator the digits come out unchanged. */
  lemma {:induction false} EmptySeparatorKeepsDigits(d: string)
    ensures GroupDigits(d, "") == d
    decreases |d|
  {
    if |d| > 3 {
      EmptySeparatorKeepsDigits(d[..|d| - 3]);
      assert d[..|d| - 3] + "" + d[|d| - 3..] == d;
    }
  }

  lemma DeleteAllDigitHead(ch: char, x: string, sep: string)
    requires IsDigit(ch) && |sep| > 0 && !IsDigit(sep[0])
    ensures DeleteAll([ch] + x, sep) == [ch] + DeleteAll(x, sep)
  {
    var s := [ch] + x;
    if |sep| <= |s| {
      assert s[..|sep|][0] != sep[0];
    }
    assert s[1..] == x;
  }

  lemma {:induction false} DeleteAllTail(t: string, sep: string)
    requires AllDigits(t) && |sep| > 0 && !IsDigit(sep[0])
    ensures DeleteAll(Tail(t, sep), sep) == t
    decreases |t|
  {
    if |t| > 0 {
      DeleteAllTail(t[1..], sep);
      DeleteAllDigitHead(t[0], Tail(t[1..], sep), sep);
      if |t| % 3 == 0 {
        var s := sep + ([t[0]] + Tail(t[1..], sep));
        assert Tail(t, sep) == s;
        assert s[..|sep|] == sep && s[|sep|..] == [t[0]] + Tail(t[1..], sep);
      } else {
        assert Tail(t, sep) == [t[0]] + Tail(t[1..], sep);
      }
      assert [t[0]] + t[1..] == t;
    }
  }

  /** Deleting a digit-free separator from the grouped text gives back the digits. */
  lemma DeleteSeparatorsRecoversDigits(d: string, sep: string)
    requires |d| >= 1 && AllDigits(d)
    requires |sep| > 0 && forall i :: 0 <= i < |sep| ==> !IsDigit(sep[i])
    ensures DeleteAll(GroupDigits(d, sep), sep) == d
  {
    GroupedFromLeft(d, sep);
    DeleteAllTail(d[1..], sep);
    DeleteAllDigitHead(d[0], Tail(d[1..], sep), sep);
    assert [d[0]] + d[1..] == d;
  }

  /** Amounts below 1000 units keep their integer text as it is. */
  lemma SmallAmountsUngrouped(cents: int, symbol: string, thousandSeparator: string, decimalSeparator: string)
    requires Abs(cents) < 100000
    ensures FormatCurrency(cents, symbol, thousandSeparator, decimalSeparator)
         == symbol + IntegerText(cents) + decimalSeparator + FractionText(cents)
  {
    var d := NatDigits(Abs(cents) / 100);
    var sign := if cents < 0 then "-" else "";
    NatDigitsShort(Abs(cents) / 100);
    assert GroupDigits(d, thousandSeparator) == d;
    assert IntegerText(cents) == sign + d;
    Nest(symbol, sign, d);
  }

  /** A negative amount shows the symbol, a minus sign, then a digit, never a separator. */
  lemma MinusFollowedByDigit(cents: int, symbol: string, thousandSeparator: string, decimalSeparator: string)
    requires cents < 0
    ensures var r := FormatCurrency(cents, symbol, thousandSeparator, decimalSeparator);
            |r| > |symbol| + 1 && r[|symbol|] == '-' && IsDigit(r[|symbol| + 1])
  {
    var d := NatDigits(Abs(cents) / 100);
    GroupedStartsWithDigit(d, thousandSeparator);
  }

  /** Four digits get one separator, after the first digit. */
  lemma GroupFour(d: string, sep: string)
    requires |d| == 4
    ensures GroupDigits(d, sep) == d[..1] + sep + d[1..]
  {
    assert GroupDigits(d[..1], sep) == d[..1];
  }

  lemma ExampleDigits()
    ensures NatDigits(1234) == "1234"
  {
    assert NatDigits(1) == "1";
    assert NatDigits(12) == "12";
    assert NatDigits(123) == "123";
  }

  lemma ExampleGroup()
    ensures GroupDigits("1234", ",") == "1,234"
  {
    assert "1234"[..1] == "1" && "1234"[1..] == "234";
  }

  lemma ExampleFraction()
    ensures FractionText(123456) == "56"
  {
  }

  /** 1234.56 is its symbol, the digits 1234 with separators put in, the decimal separator and "56". */
  lemma ExampleAmount(symbol: string, thousandSeparator: string, decimalSeparator: string)
    ensures FormatCurrency(123456, symbol, thousandSeparator, decimalSeparator)
         == symbol + InsertThousands("1234", thousandSeparator) + decimalSeparator + "56"
  {
    ExampleGrouped(symbol, thousandSeparator, decimalSeparator);
    ExampleReplace(thousandSeparator);
  }

  lemma ExampleGrouped(symbol: string, thousandSeparator: string, decimalSeparator: string)
    ensures FormatCurrency(123456, symbol, thousandSeparator, decimalSeparator)
         == symbol + GroupDigits("1234", thousandSeparator) + decimalSeparator + "56"
  {
    ExampleDigits();
    ExampleFraction();
    assert Abs(123456) / 100 == 1234;
    assert symbol + "" == symbol;
  }

  lemma ExampleReplace(sep: string)
    ensures InsertThousands("1234", sep) == GroupDigits("1234", sep)
  {
    ExampleDigits();
    InsertThousandsDigits(NatDigits(1234), sep);
  }

  /** With the default separators 1234.56 is written "$1,234.56". */
  lemma DefaultSeparatorsExample()
    ensures FormatCurrency(123456, "$") == "$1,234.56"
  {
    ExampleDigits();
    ExampleGroup();
    ExampleFraction();
    DefaultSeparatorsText();
  }

  lemma DefaultSeparatorsText()
    ensures "$" + "" + "1,234" + "." + "56" == "$1,234.56"
  {
  }
}
