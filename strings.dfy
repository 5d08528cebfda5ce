/** Character and string helpers shared by the path, header and command-line models.
    Strings are `seq<char>`; each helper mirrors the JavaScript string operation the
    server uses, on the cases the server reaches. */
module Strings {

  /** First position of `c` in `s`, or -1 (`s.indexOf(c)` for one character). */
  function IndexOf(s: string, c: char): (r: int)
    ensures -1 <= r < |s|
    ensures r >= 0 ==> s[r] == c
  {
    if s == [] then -1
    else if s[0] == c then 0
    else
      var k := IndexOf(s[1..], c);
      if k == -1 then -1 else k + 1
  }

  /** The position found is the first one, and -1 means `c` does not occur. */
  lemma {:induction false} IndexOfFirst(s: string, c: char)
    ensures IndexOf(s, c) == -1 <==> c !in s
    ensures IndexOf(s, c) >= 0 ==> c !in s[..IndexOf(s, c)]
  {
    if s != [] && s[0] != c {
      IndexOfFirst(s[1..], c);
      var k := IndexOf(s[1..], c);
      assert s == [s[0]] + s[1..];
      if k >= 0 {
        assert s[..k + 1] == [s[0]] + s[1..][..k];
      }
    }
  }

  /** Searching past a prefix without `c` finds what searching the rest finds,
      shifted by the prefix's length. */
  lemma {:induction false} IndexOfAfter(a: string, b: string, c: char)
    requires c !in a
    ensures IndexOf(a + b, c) == if IndexOf(b, c) == -1 then -1 else |a| + IndexOf(b, c)
    decreases |a|
  {
    if a == [] {
      assert a + b == b;
    } else {
      assert (a + b)[0] == a[0];
      assert (a + b)[1..] == a[1..] + b;
      assert c !in a[1..] by {
        assert forall i :: 0 <= i < |a[1..]| ==> a[1..][i] == a[i + 1];
      }
      IndexOfAfter(a[1..], b, c);
    }
  }

  /** `s` split at every `sep`, as JavaScript's `s.split(sep)`: one more part than
      there are separators, and the empty string gives `[""]`. */
  function Split(s: string, sep: char): (parts: seq<string>)
    ensures |parts| >= 1
    ensures forall i :: 0 <= i < |parts| ==> sep !in parts[i]
  {
    if s == [] then [""]
    else
      var rest := Split(s[1..], sep);
      if s[0] == sep then [""] + rest
      else [[s[0]] + rest[0]] + rest[1..]
  }

  lemma {:induction false} SplitWithoutSep(s: string, sep: char)
    requires sep !in s
    ensures Split(s, sep) == [s]
  {
    if s != [] {
      SplitWithoutSep(s[1..], sep);
      assert [s[0]] + s[1..] == s;
    }
  }

  lemma SplitCons(x: char, t: string, sep: char)
    ensures Split([x] + t, sep) ==
      if x == sep then [""] + Split(t, sep) else [[x] + Split(t, sep)[0]] + Split(t, sep)[1..]
  {
    assert ([x] + t)[1..] == t;
  }

  /** Splitting at a separator splits the text on each side independently. */
  lemma {:induction false} SplitAround(a: string, b: string, sep: char)
    ensures Split(a + [sep] + b, sep) == Split(a, sep) + Split(b, sep)
  {
    if a == [] {
      assert a + [sep] + b == [sep] + b;
      SplitCons(sep, b, sep);
    } else {
      var t := a[1..] + [sep] + b;
      assert a + [sep] + b == [a[0]] + t;
      assert a == [a[0]] + a[1..];
      SplitAround(a[1..], b, sep);
      SplitCons(a[0], t, sep);
      SplitCons(a[0], a[1..], sep);
    }
  }

  /** The parts joined with `sep` between them (`parts.join(sep)`). */
  function Join(parts: seq<string>, sep: char): string
  {
    if parts == [] then ""
    else if |parts| == 1 then parts[0]
    else parts[0] + [sep] + Join(parts[1..], sep)
  }

  /** Split undoes Join when no part holds the separator. */
  lemma {:induction false} SplitJoin(parts: seq<string>, sep: char)
    requires |parts| >= 1
    requires forall i :: 0 <= i < |parts| ==> sep !in parts[i]
    ensures Split(Join(parts, sep), sep) == parts
  {
    if |parts| == 1 {
      SplitWithoutSep(parts[0], sep);
    } else {
      SplitJoin(parts[1..], sep);
      SplitWithoutSep(parts[0], sep);
      SplitAround(parts[0], Join(parts[1..], sep), sep);
      assert [parts[0]] + parts[1..] == parts;
    }
  }

  /** Joining a non-empty list of non-empty parts gives a non-empty text that
      starts with the first part and ends with the last. */
  lemma {:induction false} JoinEnds(parts: seq<string>, sep: char)
    requires |parts| >= 1
    requires forall i :: 0 <= i < |parts| ==> parts[i] != ""
    ensures Join(parts, sep) != ""
    ensures parts[0] <= Join(parts, sep)
    ensures Join(parts, sep)[|Join(parts, sep)| - 1] == parts[|parts| - 1][|parts[|parts| - 1]| - 1]
  {
    if |parts| > 1 {
      JoinEnds(parts[1..], sep);
    }
  }

  lemma {:induction false} JoinPrefix(x: string, parts: seq<string>, sep: char)
    requires |parts| >= 1
    ensures Join([x] + parts, sep) == x + [sep] + Join(parts, sep)
  {
    assert ([x] + parts)[1..] == parts;
  }

  /** Every `from` replaced by `to` (`s.replaceAll(from, to)` for one character). */
  function ReplaceAll(s: string, from: char, to: char): (r: string)
    ensures |r| == |s|
    ensures forall i :: 0 <= i < |s| ==> r[i] == if s[i] == from then to else s[i]
    ensures from != to ==> from !in r
  {
    seq(|s|, i requires 0 <= i < |s| => if s[i] == from then to else s[i])
  }

  /** Lower case for ASCII letters; every other character is kept. */
  function LowerChar(c: char): char
  {
    if 'A' <= c <= 'Z' then (c as int + 32) as char else c
  }

  function ToLower(s: string): (r: string)
    ensures |r| == |s|
    ensures forall i :: 0 <= i < |s| ==> r[i] == LowerChar(s[i])
  {
    seq(|s|, i requires 0 <= i < |s| => LowerChar(s[i]))
  }

  /** `s.endsWith(suffix)`. */
  predicate EndsWith(s: string, suffix: string)
  {
    |suffix| <= |s| && s[|s| - |suffix|..] == suffix
  }

  predicate IsDigit(c: char)
  {
    '0' <= c <= '9'
  }

  function Digit(d: nat): (c: char)
    requires d < 10
    ensures IsDigit(c) && c as int - '0' as int == d
  {
    ('0' as int + d) as char
  }

  /** The decimal text of `n`, as JavaScript's `${n}` renders a non-negative integer. */
  function Decimal(n: nat): (r: string)
    ensures r != []
    ensures forall i :: 0 <= i < |r| ==> IsDigit(r[i])
  {
    if n < 10 then [Digit(n)] else Decimal(n / 10) + [Digit(n % 10)]
  }

  function DigitValue(c: char): nat
    requires IsDigit(c)
  {
    c as int - '0' as int
  }

  function ParseDecimal(s: string): nat
    requires forall i :: 0 <= i < |s| ==> IsDigit(s[i])
  {
    if s == [] then 0
    else ParseDecimal(s[..|s| - 1]) * 10 + DigitValue(s[|s| - 1])
  }

  /** Reading the decimal text back gives the number. */
  lemma {:induction false} DecimalRoundTrip(n: nat)
    ensures ParseDecimal(Decimal(n)) == n
  {
    if n >= 10 {
      DecimalRoundTrip(n / 10);
      var s := Decimal(n);
      assert s[..|s| - 1] == Decimal(n / 10);
    }
  }
}
