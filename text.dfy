/**
 * The JavaScript string operations the core relies on: `split` on a single
 * character and deleting every occurrence of a separator.
 */
module Text {

  /** Number of occurrences of `ch` in `s`. */
  function Count(s: string, ch: char): nat {
    if |s| == 0 then 0 else (if s[0] == ch then 1 else 0) + Count(s[1..], ch)
  }

  /** `s.split(sep)` for a one-character separator. */
  function Split(s: string, sep: char): (parts: seq<string>)
    ensures |parts| >= 1
    decreases |s|
  {
    if |s| == 0 then [""]
    else
      var rest := Split(s[1..], sep);
      if s[0] == sep then [""] + rest else [[s[0]] + rest[0]] + rest[1..]
  }

  /** `split` returns one part more than there are separators. */
  lemma {:induction false} SplitCount(s: string, sep: char)
    ensures |Split(s, sep)| == Count(s, sep) + 1
    decreases |s|
  {
    if |s| > 0 {
      SplitCount(s[1..], sep);
    }
  }

  /** A text free of the separator splits into itself, glued to whatever follows it. */
  lemma {:induction false} SplitPrefix(a: string, sep: char, b: string)
    requires sep !in a
    ensures Split(a + b, sep) == [a + Split(b, sep)[0]] + Split(b, sep)[1..]
    decreases |a|
  {
    var tail := Split(b, sep);
    if |a| == 0 {
      EmptyPrefix(a, b, tail);
    } else {
      DropFirst(a, b);
      SplitPrefix(a[1..], sep, b);
      var rest := Split(a[1..] + b, sep);
      assert Split(a + b, sep) == [[a[0]] + rest[0]] + rest[1..];
      PutFirstBack(a, tail[0]);
    }
  }

  lemma EmptyPrefix(a: string, b: string, tail: seq<string>)
    requires |a| == 0 && |tail| > 0
    ensures a + b == b && [a + tail[0]] + tail[1..] == tail
  {
    assert a + tail[0] == tail[0];
  }

  lemma DropFirst(a: string, b: string)
    requires |a| > 0
    ensures (a + b)[0] == a[0] && (a + b)[1..] == a[1..] + b
  {
  }

  lemma PutFirstBack(a: string, t: string)
    requires |a| > 0
    ensures [a[0]] + (a[1..] + t) == a + t
  {
  }

  /** Splitting "a<sep>b", neither part holding the separator, gives [a, b]. */
  lemma SplitTwo(a: string, sep: char, b: string)
    requires sep !in a && sep !in b
    ensures Split(a + [sep] + b, sep) == [a, b]
  {
    var t := [sep] + b;
    SplitAfterSeparator(sep, b);
    assert a + [sep] + b == a + t;
    SplitPrefix(a, sep, t);
    assert a + "" == a;
  }

  /** A text free of the separator splits into itself alone. */
  lemma SplitWhole(b: string, sep: char)
    requires sep !in b
    ensures Split(b, sep) == [b]
  {
    assert Split("", sep) == [""];
    SplitPrefix(b, sep, "");
    assert b + "" == b;
  }

  /** A leading separator opens an empty first part. */
  lemma SplitAfterSeparator(sep: char, b: string)
    requires sep !in b
    ensures Split([sep] + b, sep) == ["", b]
  {
    SplitWhole(b, sep);
    var t := [sep] + b;
    assert t[0] == sep && t[1..] == b;
  }

  /**
   * Deletes every occurrence of `sep`, scanning left to right (what
   * `s.split(sep).join("")` does).
   */
  function DeleteAll(s: string, sep: string): string
    requires |sep| > 0
    decreases |s|
  {
    if |s| == 0 then ""
    else if |sep| <= |s| && s[..|sep|] == sep then DeleteAll(s[|sep|..], sep)
    else [s[0]] + DeleteAll(s[1..], sep)
  }
}
