/**
 * String and sequence helpers shared by the frontend and backend models:
 * substring search (JavaScript `String.prototype.includes`, Python `in`),
 * ECMAScript `trim`, Python `str.join` and `str.upper`, decimal rendering of
 * a non-negative integer, and removal of one element from a duplicate-free
 * sequence (JavaScript `Set.delete`).
 */
module Text {

  /** `pat` occurs in `s` starting at index `i`. */
  predicate OccursAt(s: string, pat: string, i: nat) {
    i + |pat| <= |s| && s[i..i + |pat|] == pat
  }

  /** `s.includes(pat)` in JavaScript, `pat in s` in Python. */
  predicate Contains(s: string, pat: string) {
    exists i: nat | i <= |s| :: OccursAt(s, pat, i)
  }

  /** An occurrence at a known index is a witness for `Contains`. */
  lemma OccursAtContains(s: string, pat: string, i: nat)
    requires OccursAt(s, pat, i)
    ensures Contains(s, pat)
  {
  }

  /** A substring of the middle part is a substring of the whole. */
  lemma ContainsWithin(a: string, b: string, c: string, pat: string)
    requires Contains(b, pat)
    ensures Contains(a + b + c, pat)
  {
    var i: nat :| i <= |b| && OccursAt(b, pat, i);
    assert (a + b + c)[|a| + i..|a| + i + |pat|] == b[i..i + |pat|];
    OccursAtContains(a + b + c, pat, |a| + i);
  }

  /** A substring of the third part is a substring of the whole. */
  lemma ContainsInTail(a: string, b: string, c: string, d: string, pat: string)
    requires Contains(c, pat)
    ensures Contains(a + (b + c + d), pat)
  {
    ContainsWithin(a + b, c, d, pat);
    assert a + b + c + d == a + (b + c + d);
  }

  /** Four appends in a row append their concatenation. */
  lemma AppendFour(s: string, a: string, b: string, c: string, d: string)
    ensures s + a + b + c + d == s + (a + b + c + d)
  {
  }

  // ---------------------------------------------------------------------
  // ECMAScript String.prototype.trim
  // ---------------------------------------------------------------------

  /** The ECMAScript WhiteSpace and LineTerminator code points removed by `trim`. */
  predicate IsJsWhitespace(c: char) {
    c == '\t' || c == '\n' || c == '\U{B}' || c == '\U{C}' || c == '\r' || c == ' '
    || c == '\U{A0}' || c == '\U{1680}' || ('\U{2000}' <= c <= '\U{200A}')
    || c == '\U{2028}' || c == '\U{2029}' || c == '\U{202F}' || c == '\U{205F}'
    || c == '\U{3000}' || c == '\U{FEFF}'
  }

  /** Drops the leading whitespace of `s`. */
  function TrimStart(s: string): (r: string)
    ensures |r| <= |s| && r == s[|s| - |r|..]
    ensures forall k :: 0 <= k < |s| - |r| ==> IsJsWhitespace(s[k])
    ensures r == [] || !IsJsWhitespace(r[0])
  {
    if s != [] && IsJsWhitespace(s[0]) then TrimStart(s[1..]) else s
  }

  /** Drops the trailing whitespace of `s`. */
  function TrimEnd(s: string): (r: string)
    ensures |r| <= |s| && r == s[..|r|]
    ensures forall k :: |r| <= k < |s| ==> IsJsWhitespace(s[k])
    ensures r == [] || !IsJsWhitespace(r[|r| - 1])
  {
    if s != [] && IsJsWhitespace(s[|s| - 1]) then TrimEnd(s[..|s| - 1]) else s
  }

  /**
   * `s.trim()`: the longest substring of `s` that neither starts nor ends
   * with whitespace, once the whitespace on both sides is removed.
   */
  function Trim(s: string): (r: string)
    ensures exists i: nat, j: nat | i <= j <= |s| ::
              && r == s[i..j]
              && (forall k :: 0 <= k < i ==> IsJsWhitespace(s[k]))
              && (forall k :: j <= k < |s| ==> IsJsWhitespace(s[k]))
    ensures r == [] || (!IsJsWhitespace(r[0]) && !IsJsWhitespace(r[|r| - 1]))
  {
    var t := TrimStart(s);
    var r := TrimEnd(t);
    var i := |s| - |t|;
    assert r == s[i..i + |r|];
    r
  }

  // ---------------------------------------------------------------------
  // Python str.join and str.upper
  // ---------------------------------------------------------------------

  /** `sep.join(xs)` in Python. */
  function Join(xs: seq<string>, sep: string): string {
    if |xs| == 0 then ""
    else if |xs| == 1 then xs[0]
    else xs[0] + sep + Join(xs[1..], sep)
  }

  /** Every joined element is a substring of the joined text. */
  lemma {:induction false} JoinContains(xs: seq<string>, sep: string, i: nat)
    requires i < |xs|
    ensures Contains(Join(xs, sep), xs[i])
  {
    if |xs| == 1 {
      assert xs[0][0..|xs[0]|] == xs[0];
      OccursAtContains(xs[0], xs[0], 0);
    } else if i == 0 {
      assert xs[0][0..|xs[0]|] == xs[0];
      OccursAtContains(xs[0], xs[0], 0);
      ContainsWithin([], xs[0], sep + Join(xs[1..], sep), xs[0]);
      assert [] + xs[0] + (sep + Join(xs[1..], sep)) == Join(xs, sep);
    } else {
      JoinContains(xs[1..], sep, i - 1);
      ContainsWithin(xs[0] + sep, Join(xs[1..], sep), [], xs[i]);
      assert xs[0] + sep + Join(xs[1..], sep) + [] == Join(xs, sep);
    }
  }

  /** Upper case of one character; only the ASCII letters are mapped. */
  function UpperChar(c: char): char {
    if 'a' <= c <= 'z' then (c as int - 'a' as int + 'A' as int) as char else c
  }

  /** `s.upper()` in Python, restricted to ASCII letters. */
  function ToUpper(s: string): (r: string)
    ensures |r| == |s|
    ensures forall k :: 0 <= k < |s| ==> r[k] == UpperChar(s[k])
  {
    seq(|s|, k requires 0 <= k < |s| => UpperChar(s[k]))
  }

  // ---------------------------------------------------------------------
  // Decimal rendering of an integer (JavaScript template literal `${n}`)
  // ---------------------------------------------------------------------

  predicate IsDigit(c: char) {
    '0' <= c <= '9'
  }

  function DigitChar(d: nat): (c: char)
    requires d < 10
    ensures IsDigit(c)
  {
    ('0' as int + d) as char
  }

  function DigitValue(c: char): nat
    requires IsDigit(c)
  {
    c as int - '0' as int
  }

  /** The decimal numeral of `n`, without leading zeros. */
  function NatToDecimal(n: nat): (r: string)
    ensures r != []
    ensures forall k :: 0 <= k < |r| ==> IsDigit(r[k])
    ensures r[0] == '0' ==> n == 0 && r == "0"
  {
    if n < 10 then [DigitChar(n)] else NatToDecimal(n / 10) + [DigitChar(n % 10)]
  }

  /** The value of a numeral of decimal digits. */
  function ParseDecimal(s: string): nat
    requires forall k :: 0 <= k < |s| ==> IsDigit(s[k])
  {
    if s == [] then 0 else ParseDecimal(s[..|s| - 1]) * 10 + DigitValue(s[|s| - 1])
  }

  /** Rendering a number in decimal loses nothing: reading it back gives the number. */
  lemma {:induction false} DecimalRoundTrip(n: nat)
    ensures ParseDecimal(NatToDecimal(n)) == n
  {
    if n >= 10 {
      var s := NatToDecimal(n);
      assert s[..|s| - 1] == NatToDecimal(n / 10);
      DecimalRoundTrip(n / 10);
    }
  }

  // ---------------------------------------------------------------------
  // Duplicate-free sequences (JavaScript Set / Map key order)
  // ---------------------------------------------------------------------

  /** How many times `x` occurs in `s`. */
  function Occurrences<T(==)>(s: seq<T>, x: T): nat {
    if s == [] then 0 else Occurrences(s[..|s| - 1], x) + (if s[|s| - 1] == x then 1 else 0)
  }

  lemma {:induction false} OccurrencesAppend<T>(s: seq<T>, t: seq<T>, x: T)
    ensures Occurrences(s + t, x) == Occurrences(s, x) + Occurrences(t, x)
  {
    if t != [] {
      assert (s + t)[..|s + t| - 1] == s + t[..|t| - 1];
      OccurrencesAppend(s, t[..|t| - 1], x);
    } else {
      assert s + t == s;
    }
  }

  predicate NoDuplicates<T(==)>(s: seq<T>) {
    forall i, j :: 0 <= i < j < |s| ==> s[i] != s[j]
  }

  /** The position of the first `x` in `s`. */
  function IndexOf<T(==)>(s: seq<T>, x: T): (i: nat)
    requires x in s
    ensures i < |s| && s[i] == x && x !in s[..i]
  {
    if s[0] == x then 0 else 1 + IndexOf(s[1..], x)
  }

  /**
   * `r` is `s` without `x`: no `x` is left, every other element is kept, no
   * duplicate appears, an absent `x` changes nothing, and a present `x` in a
   * duplicate-free `s` is cut out at its position, the rest keeping its order.
   */
  ghost predicate RemovedFrom<T(!new)>(s: seq<T>, x: T, r: seq<T>) {
    && x !in r
    && (forall y :: y != x ==> (y in r <==> y in s))
    && (NoDuplicates(s) ==> NoDuplicates(r))
    && (x !in s ==> r == s)
    && |r| <= |s|
    && (NoDuplicates(s) && x in s ==> r == s[..IndexOf(s, x)] + s[IndexOf(s, x) + 1..])
  }

  /** Removal from a sequence that starts with `x` is removal from its tail. */
  lemma RemovedAtHead<T(!new)>(s: seq<T>, x: T, rest: seq<T>)
    requires s != [] && s[0] == x
    requires RemovedFrom(s[1..], x, rest)
    ensures RemovedFrom(s, x, rest)
  {
    if NoDuplicates(s) {
      assert x !in s[1..];
      assert rest == s[..0] + s[0 + 1..];
    }
  }

  /** Removal from a sequence whose head is not `x` keeps the head in front. */
  lemma RemovedAfterHead<T(!new)>(s: seq<T>, x: T, rest: seq<T>)
    requires s != [] && s[0] != x
    requires RemovedFrom(s[1..], x, rest)
    ensures RemovedFrom(s, x, [s[0]] + rest)
  {
    var r := [s[0]] + rest;
    if NoDuplicates(s) {
      assert NoDuplicates(s[1..]) && s[0] !in s[1..];
      if x in s {
        var j := IndexOf(s[1..], x);
        assert r == s[..j + 1] + s[j + 2..];
      }
    }
    assert s == [s[0]] + s[1..];
  }

  /** `s` with every occurrence of `x` removed, the rest kept in order. */
  function Remove<T(==,!new)>(s: seq<T>, x: T): (r: seq<T>)
    ensures x !in r
    ensures forall y :: y != x ==> (y in r <==> y in s)
    ensures NoDuplicates(s) ==> NoDuplicates(r)
    ensures x !in s ==> r == s
    ensures |r| <= |s|
    ensures NoDuplicates(s) && x in s ==> r == s[..IndexOf(s, x)] + s[IndexOf(s, x) + 1..]
  {
    if s == [] then []
    else
      var rest := Remove(s[1..], x);
      if s[0] == x then
        RemovedAtHead(s, x, rest);
        rest
      else
        RemovedAfterHead(s, x, rest);
        [s[0]] + rest
  }
}
