/**
 * The pieces of JavaScript string behaviour the collector relies on:
 * `String.prototype.trim`, `includes`, `startsWith`, `split('-').pop()`,
 * number-to-string conversion, `padStart(2, '0')`, the `\d` class and the
 * case folding of a regular expression carrying the `/i` flag.
 */
module Strings {
  import opened Wrappers

  predicate IsDigit(c: char)
  {
    '0' <= c <= '9'
  }

  predicate AllDigits(s: string)
  {
    forall k :: 0 <= k < |s| ==> IsDigit(s[k])
  }

  /** The WhiteSpace and LineTerminator code points that `trim` removes. */
  predicate IsJsSpace(c: char)
  {
    || c == '\t' || c == '\n' || c == '\U{000B}' || c == '\U{000C}' || c == '\r'
    || c == ' ' || c == '\U{00A0}' || c == '\U{1680}'
    || ('\U{2000}' <= c <= '\U{200A}')
    || c == '\U{2028}' || c == '\U{2029}' || c == '\U{202F}' || c == '\U{205F}'
    || c == '\U{3000}' || c == '\U{FEFF}'
  }

  predicate AllSpace(s: string)
  {
    forall k :: 0 <= k < |s| ==> IsJsSpace(s[k])
  }

  /** JavaScript truthiness of a string that may be null: neither null nor empty. */
  predicate Truthy(s: Option<string>)
  {
    s.Some? && s.value != ""
  }

  /** Neither end of `s` is white space. */
  predicate IsTrimmed(s: string)
  {
    s == [] || (!IsJsSpace(s[0]) && !IsJsSpace(s[|s| - 1]))
  }

  /** `s` without its leading white space. */
  function TrimStart(s: string): (r: string)
    ensures |r| <= |s| && r == s[|s| - |r|..]
    ensures AllSpace(s[..|s| - |r|])
    ensures r == [] || !IsJsSpace(r[0])
  {
    if s != [] && IsJsSpace(s[0]) then TrimStart(s[1..]) else s
  }

  /** `s` without its trailing white space. */
  function TrimEnd(s: string): (r: string)
    ensures |r| <= |s| && r == s[..|r|]
    ensures AllSpace(s[|r|..])
    ensures r == [] || !IsJsSpace(r[|r| - 1])
  {
    if s != [] && IsJsSpace(s[|s| - 1]) then TrimEnd(s[..|s| - 1]) else s
  }

  /**
   * `s.trim()`: the contiguous part of `s` that is left once the white space
   * around it is removed.
   */
  function Trim(s: string): (r: string)
    ensures IsTrimmed(r)
    ensures |TrimStart(s)| >= |r|
    ensures r == s[|s| - |TrimStart(s)|..][..|r|]
    ensures AllSpace(s[..|s| - |TrimStart(s)|])
    ensures AllSpace(s[|s| - |TrimStart(s)|..][|r|..])
  {
    TrimEnd(TrimStart(s))
  }

  /** A string without white space at either end is its own trim. */
  lemma {:induction false} TrimTrimmed(s: string)
    requires IsTrimmed(s)
    ensures Trim(s) == s
  {
    assert TrimStart(s) == s;
    assert TrimEnd(s) == s;
  }

  /** Every character of `Trim(s)` occurs in `s`. */
  lemma TrimChars(s: string, k: nat)
    requires k < |Trim(s)|
    ensures Trim(s)[k] in s
  {
    var t := TrimStart(s);
    var lo := |s| - |t|;
    assert t == s[lo..];
    assert Trim(s) == t[..|Trim(s)|];
    assert Trim(s)[k] == t[k];
    assert t[k] == s[lo + k];
  }

  /** `s` holds `lit` at position `i`, exactly. */
  predicate LitAt(s: string, i: nat, lit: string)
  {
    i + |lit| <= |s| && s[i..i + |lit|] == lit
  }

  /** `s.startsWith(lit)` */
  predicate StartsWith(s: string, lit: string)
  {
    LitAt(s, 0, lit)
  }

  /** `s.includes(lit)` */
  predicate Contains(s: string, lit: string)
  {
    exists i: nat | i <= |s| :: LitAt(s, i, lit)
  }

  /**
   * The canonical form a character takes when a regular expression with the
   * `/i` flag (and no `/u` flag) compares it: its upper case. Folded here are
   * the ASCII letters and the Latin-1 small letters U+00E0 to U+00FE (the
   * division sign U+00F7 excepted), which covers every letter of the
   * collector's patterns; all other characters are their own form.
   */
  function Canon(c: char): (r: char)
    ensures IsDigit(c) <==> IsDigit(r)
  {
    if 'a' <= c <= 'z' then (c as int - 32) as char
    else if '\U{00E0}' <= c <= '\U{00FE}' && c != '\U{00F7}' then (c as int - 32) as char
    else c
  }

  /** `c` and `d` are the same character when case is ignored. */
  predicate SameIgnoringCase(c: char, d: char)
  {
    Canon(c) == Canon(d)
  }

  /** `s` holds `lit` at position `i`, case ignored as under `/i`. */
  predicate LitAtI(s: string, i: nat, lit: string)
  {
    i + |lit| <= |s| && forall k :: 0 <= k < |lit| ==> SameIgnoringCase(s[i + k], lit[k])
  }

  /** A single differing character rules out `LitAtI`. */
  lemma NotLitAtI(s: string, i: nat, lit: string, k: nat)
    requires k < |lit| && i + k < |s| && !SameIgnoringCase(s[i + k], lit[k])
    ensures !LitAtI(s, i, lit)
  {
  }

  /**
   * The least position in `from..n` at which `p` holds: how a regular
   * expression engine finds the leftmost match, one start position after
   * another.
   */
  function FirstIndex(n: nat, from: nat, p: nat -> bool): (r: Option<nat>)
    decreases n - from
    ensures r.Some? ==> from <= r.value <= n && p(r.value)
    ensures r.Some? ==> forall j :: from <= j < r.value ==> !p(j)
    ensures r.None? ==> forall j :: from <= j <= n ==> !p(j)
  {
    if from > n then None
    else if p(from) then Some(from)
    else FirstIndex(n, from + 1, p)
  }

  /** The least matching position is the one `FirstIndex` finds. */
  lemma FirstIndexAt(n: nat, from: nat, p: nat -> bool, i: nat)
    requires from <= i <= n && p(i)
    requires forall j :: from <= j < i ==> !p(j)
    ensures FirstIndex(n, from, p) == Some(i)
  {
  }

  /**
   * `s.split(sep).pop()`: the text after the last `sep`, or all of `s` when
   * it holds none.
   */
  function LastSegment(s: string, sep: char): (r: string)
    ensures |r| <= |s| && r == s[|s| - |r|..]
    ensures sep !in r
    ensures |r| < |s| ==> s[|s| - |r| - 1] == sep
  {
    if s == [] then []
    else if s[|s| - 1] == sep then []
    else LastSegment(s[..|s| - 1], sep) + [s[|s| - 1]]
  }

  function DigitChar(d: nat): (c: char)
    requires d < 10
    ensures IsDigit(c)
  {
    ('0' as int + d) as char
  }

  /** The number a string of decimal digits denotes. */
  function DecimalValue(s: string): nat
    requires AllDigits(s)
  {
    if s == [] then 0
    else 10 * DecimalValue(s[..|s| - 1]) + (s[|s| - 1] as int - '0' as int)
  }

  /** `String(n)` for a natural number: its decimal digits, without leading zeros. */
  function NatToString(n: nat): (r: string)
    ensures |r| >= 1 && AllDigits(r)
    ensures |r| > 1 ==> r[0] != '0'
    ensures n < 10 <==> |r| == 1
  {
    if n < 10 then [DigitChar(n)]
    else NatToString(n / 10) + [DigitChar(n % 10)]
  }

  /** Reading back the digits `NatToString` writes gives the number. */
  lemma {:induction false} NatToStringValue(n: nat)
    ensures DecimalValue(NatToString(n)) == n
  {
    var r := NatToString(n);
    if n >= 10 {
      NatToStringValue(n / 10);
      assert r[..|r| - 1] == NatToString(n / 10);
    }
  }

  /** `String(i)` for any integer. */
  function IntToString(i: int): (r: string)
    ensures |r| >= 1
    ensures i >= 0 ==> r == NatToString(i)
    ensures i < 0 ==> r[0] == '-' && r[1..] == NatToString(-i)
  {
    if i < 0 then "-" + NatToString(-i) else NatToString(i)
  }

  /** `s.padStart(2, '0')` */
  function PadStart2(s: string): (r: string)
    ensures |r| == if |s| < 2 then 2 else |s|
    ensures r[|r| - |s|..] == s
    ensures forall k :: 0 <= k < |r| - |s| ==> r[k] == '0'
  {
    if |s| == 0 then "00" else if |s| == 1 then "0" + s else s
  }

  /** A padded number below 100 is exactly two digits and still denotes it. */
  lemma PadStart2Number(n: nat)
    requires n < 100
    ensures var r := PadStart2(NatToString(n));
      |r| == 2 && AllDigits(r) && DecimalValue(r) == n
  {
    NatToStringValue(n);
    var t := NatToString(n);
    var r := PadStart2(t);
    if |t| == 1 {
      assert r[..1] == "0";
      assert DecimalValue(r[..1]) == 0 by {
        assert r[..1][..0] == [];
      }
      assert DecimalValue(t) == t[0] as int - '0' as int by {
        assert t[..0] == [];
      }
    } else {
      assert |t| == 2 by {
        if |t| > 2 {
          NatToStringAtLeast(n);
        }
      }
    }
  }

  /** Three or more digits without a leading zero denote at least 100. */
  lemma {:induction false} NatToStringAtLeast(n: nat)
    requires |NatToString(n)| > 2
    ensures n >= 100
  {
    assert n >= 10;
    assert |NatToString(n / 10)| > 1;
    assert n / 10 >= 10;
  }
}
