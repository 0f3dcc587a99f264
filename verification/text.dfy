/** String helpers the screens rely on: ASCII lower-casing, prefix and substring
    tests, joining, truncation, left padding, decimal printing and the part of
    `parseInt(s, 10)` the application uses (a leading run of decimal digits). */
module Text {
  import opened Wrappers

  // ---------------------------------------------------------------------------
  // Case folding and searching

  /** Lower-cases the ASCII letters A-Z and leaves every other character alone. */
  function LowerChar(c: char): char {
    if 'A' <= c <= 'Z' then (c as int - 'A' as int + 'a' as int) as char else c
  }

  function Lower(s: string): (r: string)
    ensures |r| == |s|
    ensures forall i :: 0 <= i < |s| ==> r[i] == LowerChar(s[i])
  {
    if |s| == 0 then [] else Lower(s[..|s| - 1]) + [LowerChar(s[|s| - 1])]
  }

  /** Lower-casing twice is lower-casing once. */
  lemma {:induction false} LowerIdempotent(s: string)
    ensures Lower(Lower(s)) == Lower(s)
  {
    assert forall i :: 0 <= i < |s| ==> LowerChar(LowerChar(s[i])) == LowerChar(s[i]);
  }

  predicate StartsWith(s: string, prefix: string) {
    |prefix| <= |s| && s[..|prefix|] == prefix
  }

  /** `t` occurs in `s` starting at offset `i`. */
  predicate OccursAt(s: string, t: string, i: nat) {
    i + |t| <= |s| && s[i..i + |t|] == t
  }

  /** `s.includes(t)`: `t` occurs in `s` at some offset. */
  predicate Contains(s: string, t: string) {
    exists i: nat :: i <= |s| && OccursAt(s, t, i)
  }

  /** The screens' search rule: `value.toLowerCase().includes(term.toLowerCase())`. */
  predicate ContainsIgnoreCase(value: string, term: string) {
    Contains(Lower(value), Lower(term))
  }

  // ---------------------------------------------------------------------------
  // Joining, truncating, padding, splitting

  /** `parts.join(sep)`. */
  function Join(parts: seq<string>, sep: string): (r: string)
    ensures |parts| == 0 ==> r == ""
    ensures |parts| == 1 ==> r == parts[0]
  {
    if |parts| == 0 then ""
    else if |parts| == 1 then parts[0]
    else Join(parts[..|parts| - 1], sep) + sep + parts[|parts| - 1]
  }

  /** `s.substring(0, n)`. */
  function Take(s: string, n: nat): (r: string)
    ensures |r| == if |s| <= n then |s| else n
    ensures StartsWith(s, r)
  {
    if |s| <= n then s else s[..n]
  }

  function Repeat(c: char, n: nat): (r: string)
    ensures |r| == n
    ensures forall i :: 0 <= i < n ==> r[i] == c
  {
    if n == 0 then "" else Repeat(c, n - 1) + [c]
  }

  /** `s.padStart(width, c)`. */
  function PadStart(s: string, width: nat, c: char): (r: string)
    ensures |r| == if |s| >= width then |s| else width
    ensures exists k: nat :: r == Repeat(c, k) + s
  {
    if |s| >= width then
      assert s == Repeat(c, 0) + s;
      s
    else
      Repeat(c, width - |s|) + s
  }

  /** Index of the first occurrence of `c` in `s`, if any. */
  function IndexOf(s: string, c: char): (r: Option<nat>)
    ensures r.None? <==> c !in s
    ensures r.Some? ==> r.value < |s| && s[r.value] == c && c !in s[..r.value]
    ensures r.Some? ==> forall k :: 0 <= k < r.value ==> s[k] != c
  {
    if |s| == 0 then None
    else if s[0] == c then Some(0)
    else
      match IndexOf(s[1..], c)
      case None => None
      case Some(k) =>
        assert s[..k + 1] == [s[0]] + s[1..][..k];
        Some(k + 1)
  }

  /** The first `c` after a head free of `c` is the one right after it. */
  lemma IndexOfAfterHead(head: string, c: char, rest: string)
    requires c !in head
    ensures IndexOf(head + [c] + rest, c) == Some(|head|)
    ensures (head + [c] + rest)[..|head|] == head && (head + [c] + rest)[|head| + 1..] == rest
  {
    var s := head + [c] + rest;
    assert s[|head|] == c;
    assert forall k :: 0 <= k < |head| ==> s[k] == head[k];
    var r := IndexOf(s, c);
    assert r.value <= |head|;
    assert r.value >= |head|;
    assert s[..|head|] == head && s[|head| + 1..] == rest;
  }

  /** `s.split(c)` for a one-character separator: the pieces between the
      occurrences of `c`, at least one. */
  function Split(s: string, c: char): (r: seq<string>)
    ensures |r| >= 1
    ensures forall i :: 0 <= i < |r| ==> c !in r[i]
    decreases |s|
  {
    match IndexOf(s, c)
    case None => [s]
    case Some(k) => [s[..k]] + Split(s[k + 1..], c)
  }

  /** Joining a non-empty tail after a head puts one separator between them. */
  lemma {:induction false} JoinCons(head: string, rest: seq<string>, sep: string)
    requires |rest| >= 1
    ensures Join([head] + rest, sep) == head + sep + Join(rest, sep)
    decreases |rest|
  {
    var parts := [head] + rest;
    var n := |rest|;
    if n > 1 {
      assert parts[..|parts| - 1] == [head] + rest[..n - 1];
      JoinCons(head, rest[..n - 1], sep);
    } else {
      assert parts == [head, rest[0]];
    }
  }

  /** Splitting on a character and joining the pieces back with it gives the
      original string. */
  lemma {:induction false} JoinSplit(s: string, c: char)
    ensures Join(Split(s, c), [c]) == s
    decreases |s|
  {
    match IndexOf(s, c)
    case None =>
    case Some(k) =>
      JoinSplit(s[k + 1..], c);
      JoinCons(s[..k], Split(s[k + 1..], c), [c]);
      assert s == s[..k] + [c] + s[k + 1..];
  }

  /** Splitting after a separator-free head gives the head, then the pieces of
      the rest. */
  lemma SplitAfterHead(head: string, rest: string, c: char)
    requires c !in head
    ensures Split(head + [c] + rest, c) == [head] + Split(rest, c)
  {
    var s := head + [c] + rest;
    assert s[|head|] == c;
    assert forall k :: 0 <= k < |head| ==> s[k] == head[k];
    var r := IndexOf(s, c);
    assert r.value <= |head|;
    assert r.value >= |head|;
    assert s[..|head|] == head && s[|head| + 1..] == rest;
  }

  /** The first piece of a split, the separator and the rest re-joined make up
      the string; without the separator the split is the string alone. */
  lemma SplitHeadTail(s: string, c: char)
    ensures c in s ==> s == Split(s, c)[0] + [c] + Join(Split(s, c)[1..], [c])
    ensures c !in s ==> Split(s, c) == [s]
  {
    var parts := Split(s, c);
    JoinSplit(s, c);
    assert parts == [parts[0]] + parts[1..];
    if |parts| > 1 {
      JoinCons(parts[0], parts[1..], [c]);
    }
  }

  // ---------------------------------------------------------------------------
  // Decimal numbers

  predicate IsDigit(c: char) {
    '0' <= c <= '9'
  }

  predicate AllDigits(s: string) {
    forall i :: 0 <= i < |s| ==> IsDigit(s[i])
  }

  function DigitChar(d: nat): char
    requires d < 10
  {
    ('0' as int + d) as char
  }

  /** The value of a string of decimal digits, most significant first. */
  function DigitsValue(s: string): nat
    requires AllDigits(s)
  {
    if |s| == 0 then 0
    else DigitsValue(s[..|s| - 1]) * 10 + (s[|s| - 1] as int - '0' as int)
  }

  /** Length of the leading run of decimal digits of `s`. */
  function DigitRun(s: string): (n: nat)
    ensures n <= |s|
    ensures AllDigits(s[..n])
    ensures n < |s| ==> !IsDigit(s[n])
  {
    if |s| == 0 || !IsDigit(s[0]) then 0
    else
      var n := 1 + DigitRun(s[1..]);
      assert s[..n] == [s[0]] + s[1..][..n - 1];
      n
  }

  /** `parseInt(s, 10)` restricted to its digit case: the value of the leading
      run of digits, or None (JavaScript's NaN) when `s` does not start with a
      digit. */
  function ParseLeadingInt(s: string): (r: Option<nat>)
    ensures r.None? <==> (|s| == 0 || !IsDigit(s[0]))
    ensures r.Some? ==> r.value == DigitsValue(s[..DigitRun(s)])
  {
    var n := DigitRun(s);
    if n == 0 then None else Some(DigitsValue(s[..n]))
  }

  /** `n.toString()` for a natural number. */
  function NatToString(n: nat): (r: string)
    ensures |r| > 0
    ensures AllDigits(r)
  {
    if n < 10 then [DigitChar(n)] else NatToString(n / 10) + [DigitChar(n % 10)]
  }

  /** `i.toString()` for an integer: a minus sign before the magnitude. */
  function IntToString(i: int): (r: string)
    ensures i >= 0 ==> r == NatToString(i)
    ensures i < 0 ==> r == "-" + NatToString(-i)
  {
    if i < 0 then "-" + NatToString(-i) else NatToString(i)
  }

  lemma {:induction false} NatToStringValue(n: nat)
    ensures DigitsValue(NatToString(n)) == n
  {
    if n >= 10 {
      var s := NatToString(n);
      NatToStringValue(n / 10);
      assert s[..|s| - 1] == NatToString(n / 10);
    }
  }

  function Pow10(k: nat): nat {
    if k == 0 then 1 else 10 * Pow10(k - 1)
  }

  lemma {:induction false} DigitsValueAppend(a: string, b: string)
    requires AllDigits(a) && AllDigits(b)
    ensures AllDigits(a + b)
    ensures DigitsValue(a + b) == DigitsValue(a) * Pow10(|b|) + DigitsValue(b)
  {
    if |b| > 0 {
      var ab := a + b;
      var b' := b[..|b| - 1];
      assert ab[..|ab| - 1] == a + b';
      DigitsValueAppend(a, b');
      ShiftDigit(DigitsValue(a), Pow10(|b'|), DigitsValue(b'), b[|b| - 1] as int - '0' as int);
    } else {
      assert a + b == a;
    }
  }

  /** Appending a digit `d` to a value `x * p + v` scales both parts by ten. */
  lemma ShiftDigit(x: int, p: int, v: int, d: int)
    ensures (x * p + v) * 10 + d == x * (10 * p) + (v * 10 + d)
  {
  }

  lemma {:induction false} ZerosValue(k: nat)
    ensures AllDigits(Repeat('0', k))
    ensures DigitsValue(Repeat('0', k)) == 0
  {
    if k > 0 {
      ZerosValue(k - 1);
      assert Repeat('0', k)[..k - 1] == Repeat('0', k - 1);
    }
  }

  /** A zero-padded decimal rendering parses back to the number it renders:
      `parseInt(String(n).padStart(w, '0'), 10) == n`. */
  lemma PaddedNumberRoundTrip(n: nat, width: nat)
    ensures ParseLeadingInt(PadStart(NatToString(n), width, '0')) == Some(n)
  {
    var s := NatToString(n);
    var p := PadStart(s, width, '0');
    var k: nat :| p == Repeat('0', k) + s;
    ZerosValue(k);
    DigitsValueAppend(Repeat('0', k), s);
    NatToStringValue(n);
    assert AllDigits(p);
    AllDigitsRun(p);
    assert p[..|p|] == p;
  }

  /** The leading digit run of digits followed by a non-digit is those digits. */
  lemma {:induction false} DigitRunStops(a: string, b: string)
    requires AllDigits(a) && |b| > 0 && !IsDigit(b[0])
    ensures DigitRun(a + b) == |a|
  {
    if |a| > 0 {
      assert (a + b)[1..] == a[1..] + b;
      DigitRunStops(a[1..], b);
    } else {
      assert a + b == b;
    }
  }

  lemma AllDigitsRun(s: string)
    requires AllDigits(s)
    ensures DigitRun(s) == |s|
  {
    if |s| > 0 {
      AllDigitsRun(s[1..]);
    }
  }

  /** Printing a natural number and parsing it back gives the number. */
  lemma NatToStringRoundTrip(n: nat)
    ensures ParseLeadingInt(NatToString(n)) == Some(n)
  {
    var s := NatToString(n);
    AllDigitsRun(s);
    assert s[..|s|] == s;
    NatToStringValue(n);
  }
}
