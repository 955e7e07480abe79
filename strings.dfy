/**
 * Python's `str` of an integer, `'_'.join`, and splitting at a separator,
 * with the parsers that undo them. Graph cache file names are made of these.
 */
module Strings {
  import opened Parity

  function DigitChar(d: nat): (c: char)
    requires d < 10
    ensures '0' <= c <= '9'
  {
    "0123456789"[d]
  }

  function DigitValue(c: char): (d: nat)
    ensures '0' <= c <= '9' ==> d < 10 && DigitChar(d) == c
  {
    if '0' <= c <= '9' then (c as int - '0' as int) else 0
  }

  lemma DigitRoundTrip(d: nat)
    requires d < 10
    ensures DigitValue(DigitChar(d)) == d
  {
  }

  predicate IsDigits(s: string)
  {
    |s| > 0 && forall k :: 0 <= k < |s| ==> '0' <= s[k] <= '9'
  }

  /** `str(n)` for a natural number: decimal digits, most significant first, no leading zero. */
  function NatToString(n: nat): (s: string)
    ensures IsDigits(s)
  {
    if n < 10 then [DigitChar(n)] else NatToString(n / 10) + [DigitChar(n % 10)]
  }

  /** The value of a string of decimal digits. */
  function ParseNat(s: string): nat
  {
    if |s| == 0 then 0 else ParseNat(s[..|s| - 1]) * 10 + DigitValue(s[|s| - 1])
  }

  lemma {:induction false} ParseNatToString(n: nat)
    ensures ParseNat(NatToString(n)) == n
  {
    if n < 10 {
      DigitRoundTrip(n);
    } else {
      var s := NatToString(n / 10) + [DigitChar(n % 10)];
      assert s[..|s| - 1] == NatToString(n / 10);
      ParseNatToString(n / 10);
      DigitRoundTrip(n % 10);
    }
  }

  /** `str(i)`: a minus sign before the digits of a negative number. */
  function IntToString(i: int): (s: string)
    ensures |s| > 0 && (s[0] == '-' || '0' <= s[0] <= '9')
    ensures '_' !in s
  {
    if i < 0 then "-" + NatToString(-i) else NatToString(i)
  }

  function ParseInt(s: string): int
  {
    if |s| > 0 && s[0] == '-' then -(ParseNat(s[1..]) as int) else ParseNat(s) as int
  }

  /** Reading back the decimal form of an integer gives the integer. */
  lemma ParseIntToString(i: int)
    ensures ParseInt(IntToString(i)) == i
  {
    if i < 0 {
      assert ("-" + NatToString(-i))[1..] == NatToString(-i);
      ParseNatToString(-i);
    } else {
      ParseNatToString(i);
    }
  }

  /** Two integers with the same decimal form are equal. */
  lemma IntToStringInjective(i: int, j: int)
    ensures IntToString(i) == IntToString(j) ==> i == j
  {
    ParseIntToString(i);
    ParseIntToString(j);
  }

  /** `sep.join(ts)`. */
  function Join(ts: seq<string>, sep: char): string
  {
    if |ts| == 0 then "" else if |ts| == 1 then ts[0] else ts[0] + [sep] + Join(ts[1..], sep)
  }

  /** `s.split(sep)`: the pieces between occurrences of sep, always at least one. */
  function Split(s: string, sep: char): (r: seq<string>)
    ensures |r| > 0
    decreases |s|
  {
    var i := IndexOf(s, sep);
    if i == |s| then [s] else [s[..i]] + Split(s[i + 1..], sep)
  }

  /** Splitting a joined list of pieces without the separator gives the pieces back. */
  lemma {:induction false} SplitJoin(ts: seq<string>, sep: char)
    requires |ts| > 0 && forall k :: 0 <= k < |ts| ==> sep !in ts[k]
    ensures Split(Join(ts, sep), sep) == ts
  {
    if |ts| == 1 {
      NotFound(ts[0], sep);
    } else {
      var rest := Join(ts[1..], sep);
      assert Join(ts, sep) == ts[0] + [sep] + rest;
      assert sep !in ts[0];
      SplitStep(ts[0], rest, sep);
      SplitJoin(ts[1..], sep);
      assert [ts[0]] + ts[1..] == ts;
    }
  }

  /** A piece without the separator, then the separator: the split takes that piece off first. */
  lemma SplitStep(a: string, rest: string, sep: char)
    requires sep !in a
    ensures Split(a + [sep] + rest, sep) == [a] + Split(rest, sep)
  {
    var s := a + [sep] + rest;
    assert s == a + ([sep] + rest);
    IndexOfPrefix(a, [sep] + rest, sep);
    assert s[..|a|] == a;
    assert s[|a| + 1..] == rest;
  }

  lemma NotFound(s: string, x: char)
    ensures x !in s ==> IndexOf(s, x) == |s|
  {
    var i := IndexOf(s, x);
    assert i < |s| ==> s[i] in s;
  }

  lemma {:induction false} IndexOfPrefix(a: string, b: string, x: char)
    requires x !in a && |b| > 0 && b[0] == x
    ensures IndexOf(a + b, x) == |a|
  {
    if |a| > 0 {
      assert (a + b)[1..] == a[1..] + b;
      IndexOfPrefix(a[1..], b, x);
    } else {
      assert a + b == b;
    }
  }

  /** Appending a piece to a non-empty list appends the separator and the piece. */
  lemma {:induction false} JoinSnoc(ts: seq<string>, t: string, sep: char)
    requires |ts| > 0
    ensures Join(ts + [t], sep) == Join(ts, sep) + [sep] + t
  {
    if |ts| == 1 {
      assert (ts + [t])[1..] == [t];
    } else {
      assert (ts + [t])[1..] == ts[1..] + [t];
      JoinSnoc(ts[1..], t, sep);
    }
  }
}
