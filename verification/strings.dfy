/** Text helpers: splitting at a separator, decimal rendering of `u64` values, ASCII upper-casing. */
module Strings {

  /** Index of the first occurrence of `c` in `s`. */
  function IndexOf(s: string, c: char): (i: nat)
    requires c in s
    ensures i < |s| && s[i] == c
    ensures c !in s[..i]
  {
    if s[0] == c then 0 else 1 + IndexOf(s[1..], c)
  }

  /** Splits `s` at every `sep`; the pieces never contain `sep`, and there is always at least one. */
  function Split(s: string, sep: char): (parts: seq<string>)
    ensures |parts| >= 1
    ensures forall i :: 0 <= i < |parts| ==> sep !in parts[i]
    decreases |s|
  {
    if sep !in s then [s]
    else
      var i := IndexOf(s, sep);
      [s[..i]] + Split(s[i + 1..], sep)
  }

  /** Glues `parts` back together with `sep` between consecutive pieces. */
  function Intercalate(parts: seq<string>, sep: char): string
  {
    if |parts| == 0 then ""
    else if |parts| == 1 then parts[0]
    else parts[0] + [sep] + Intercalate(parts[1..], sep)
  }

  /** Gluing a piece in front of at least one more piece puts one separator between them. */
  lemma IntercalateCons(first: string, rest: seq<string>, sep: char)
    requires |rest| >= 1
    ensures Intercalate([first] + rest, sep) == first + [sep] + Intercalate(rest, sep)
  {
    assert ([first] + rest)[1..] == rest;
  }

  /** Splitting loses nothing: gluing the pieces gives the original text back. */
  lemma {:induction false} IntercalateSplit(s: string, sep: char)
    ensures Intercalate(Split(s, sep), sep) == s
    decreases |s|
  {
    if sep in s {
      var i := IndexOf(s, sep);
      var rest := Split(s[i + 1..], sep);
      assert Split(s, sep) == [s[..i]] + rest;
      IntercalateCons(s[..i], rest, sep);
      IntercalateSplit(s[i + 1..], sep);
      assert s == s[..i] + [sep] + s[i + 1..];
    }
  }

  /** The first separator of `p + [sep] + t` sits right after `p` when `p` has none. */
  lemma IndexOfAfterPiece(p: string, sep: char, t: string)
    requires sep !in p
    ensures IndexOf(p + [sep] + t, sep) == |p|
  {
    var s := p + [sep] + t;
    assert s[|p|] == sep;
    assert forall k :: 0 <= k < |p| ==> s[k] == p[k];
  }

  /** Gluing separator-free pieces and splitting again gives the same pieces. */
  lemma {:induction false} SplitIntercalate(parts: seq<string>, sep: char)
    requires |parts| >= 1
    requires forall i :: 0 <= i < |parts| ==> sep !in parts[i]
    ensures Split(Intercalate(parts, sep), sep) == parts
    decreases |parts|
  {
    if |parts| > 1 {
      var t := Intercalate(parts[1..], sep);
      assert parts == [parts[0]] + parts[1..];
      IntercalateCons(parts[0], parts[1..], sep);
      SplitAfterPiece(parts[0], sep, t);
      SplitIntercalate(parts[1..], sep);
    }
  }

  /** Splitting `a + [sep] + b` where `a` has no separator peels `a` off first. */
  lemma SplitAfterPiece(a: string, sep: char, b: string)
    requires sep !in a
    ensures Split(a + [sep] + b, sep) == [a] + Split(b, sep)
  {
    var s := a + [sep] + b;
    IndexOfAfterPiece(a, sep, b);
    assert s[..|a|] == a;
    assert s[|a| + 1..] == b;
  }

  predicate IsDigit(c: char) {
    '0' <= c <= '9'
  }

  predicate AllDigits(s: string) {
    forall i :: 0 <= i < |s| ==> IsDigit(s[i])
  }

  function DigitChar(d: nat): (c: char)
    requires d < 10
    ensures IsDigit(c)
  {
    ('0' as int + d) as char
  }

  function DigitValue(c: char): (d: nat)
    requires IsDigit(c)
    ensures d < 10
  {
    c as int - '0' as int
  }

  /** Decimal rendering of a number, as Rust's `u64::to_string`: no sign, no leading zeros. */
  function NatToString(n: nat): (s: string)
    ensures |s| >= 1
    ensures AllDigits(s)
    ensures s[0] == '0' ==> n == 0
    decreases n
  {
    if n < 10 then [DigitChar(n)]
    else NatToString(n / 10) + [DigitChar(n % 10)]
  }

  /** Reads a decimal digit string back into a number. */
  function ParseNat(s: string): nat
    requires AllDigits(s)
  {
    if |s| == 0 then 0
    else 10 * ParseNat(s[..|s| - 1]) + DigitValue(s[|s| - 1])
  }

  /** Rendering then parsing is the identity: the decimal form of a number identifies it. */
  lemma {:induction false} ParseNatToString(n: nat)
    ensures ParseNat(NatToString(n)) == n
    decreases n
  {
    var s := NatToString(n);
    if n >= 10 {
      ParseNatToString(n / 10);
      assert s[..|s| - 1] == NatToString(n / 10);
    }
  }

  function UpperChar(c: char): char {
    if 'a' <= c <= 'z' then (c as int - 'a' as int + 'A' as int) as char else c
  }

  /** ASCII upper-casing, character by character. */
  function AsciiUpper(s: string): (r: string)
    ensures |r| == |s|
    ensures forall i :: 0 <= i < |s| ==> r[i] == UpperChar(s[i])
  {
    if |s| == 0 then "" else [UpperChar(s[0])] + AsciiUpper(s[1..])
  }
}
