/**
 * The few operations of java.lang.String that the core relies on, over `seq<char>`.
 * Java counts lengths and indices in UTF-16 code units, and this model counts
 * characters. The two agree on text without characters outside the Basic
 * Multilingual Plane.
 */
module Strings {

  /** `s.lastIndexOf(c)`: the last position of `c` in `s`, or -1. */
  function LastIndexOf(s: string, c: char): (i: int)
    ensures -1 <= i < |s|
  {
    if s == [] then -1
    else if s[|s| - 1] == c then |s| - 1
    else LastIndexOf(s[..|s| - 1], c)
  }

  /** `s.substring(s.lastIndexOf(c) + 1)`: what follows the last `c`, or all of `s` if there is none. */
  function AfterLast(s: string, c: char): string
  {
    s[LastIndexOf(s, c) + 1..]
  }

  /** `s` without the run of `c` at its end. */
  function StripTrailing(s: string, c: char): string
  {
    if s != [] && s[|s| - 1] == c then StripTrailing(s[..|s| - 1], c) else s
  }

  /** What comes before the first `c`, or all of `s` if there is none. */
  function BeforeFirst(s: string, c: char): string
  {
    if s == [] || s[0] == c then [] else [s[0]] + BeforeFirst(s[1..], c)
  }

  /** The suffix of `s` that starts at the first `c`, or the empty string if there is none. */
  function FromFirst(s: string, c: char): string
  {
    if s == [] || s[0] == c then s else FromFirst(s[1..], c)
  }

  /** `Character` code units that `String.trim` removes: everything up to and including the space. */
  predicate IsTrimmed(c: char)
  {
    c <= ' '
  }

  /** `s` without the leading characters that `String.trim` removes. */
  function TrimStart(s: string): string
  {
    if s != [] && IsTrimmed(s[0]) then TrimStart(s[1..]) else s
  }

  /** `s` without the trailing characters that `String.trim` removes. */
  function TrimEnd(s: string): string
  {
    if s != [] && IsTrimmed(s[|s| - 1]) then TrimEnd(s[..|s| - 1]) else s
  }

  /** `s.trim()`: `s` without the control characters and spaces at either end. */
  function Trim(s: string): string
  {
    TrimEnd(TrimStart(s))
  }

  /** `Character.toLowerCase` restricted to the ASCII letters. */
  function LowerAscii(c: char): char
  {
    if 'A' <= c <= 'Z' then (c as int - 'A' as int + 'a' as int) as char else c
  }

  /** `a.equalsIgnoreCase(b)` for ASCII text: same length, same letters up to case. */
  predicate EqualsIgnoreCase(a: string, b: string)
  {
    |a| == |b| && forall i :: 0 <= i < |a| ==> LowerAscii(a[i]) == LowerAscii(b[i])
  }

  /** One decimal digit. */
  function DigitChar(d: nat): char
    requires d < 10
  {
    "0123456789"[d]
  }

  /** The decimal text of a natural number, as `String.valueOf` writes it. */
  function NatToText(n: nat): (s: string)
    ensures |s| >= 1
    decreases n
  {
    if n < 10 then [DigitChar(n)] else NatToText(n / 10) + [DigitChar(n % 10)]
  }

  /** `String.valueOf(n)` for an integer. */
  function IntToText(n: int): string
  {
    if n < 0 then "-" + NatToText(-n) else NatToText(n)
  }

  /** The value of a run of decimal digits. */
  function DigitsValue(s: string): (v: nat)
    requires forall i :: 0 <= i < |s| ==> '0' <= s[i] <= '9'
  {
    if s == [] then 0 else 10 * DigitsValue(s[..|s| - 1]) + (s[|s| - 1] as int - '0' as int)
  }

  /** `s` is one or more decimal digits. */
  predicate IsDigits(s: string)
  {
    |s| > 0 && forall i :: 0 <= i < |s| ==> '0' <= s[i] <= '9'
  }

  // The properties of the searches and cuts above. They are lemmas rather than
  // postconditions so that a proof about a derived name pays for them only when it
  // asks for them.

  /** `LastIndexOf` finds the last occurrence, and -1 exactly when there is none. */
  lemma {:induction false} LastIndexOfSpec(s: string, c: char)
    ensures LastIndexOf(s, c) == -1 <==> c !in s
    ensures LastIndexOf(s, c) >= 0 ==> s[LastIndexOf(s, c)] == c
    ensures forall j :: LastIndexOf(s, c) < j < |s| ==> s[j] != c
    decreases |s|
  {
    if s != [] && s[|s| - 1] != c {
      var s' := s[..|s| - 1];
      LastIndexOfSpec(s', c);
      assert s == s' + [s[|s| - 1]];
    }
  }

  /** `AfterLast` is the suffix after the last `c`: it holds no `c`, and a `c` precedes it when `s` has one. */
  lemma AfterLastSpec(s: string, c: char)
    ensures c !in AfterLast(s, c)
    ensures |AfterLast(s, c)| <= |s| && AfterLast(s, c) == s[|s| - |AfterLast(s, c)|..]
    ensures c in s ==> s[|s| - |AfterLast(s, c)| - 1] == c
    ensures c !in s ==> AfterLast(s, c) == s
  {
    LastIndexOfSpec(s, c);
    var i := LastIndexOf(s, c);
    var t := AfterLast(s, c);
    assert c !in t by {
      forall k | 0 <= k < |t|
        ensures t[k] != c
      {
        assert t[k] == s[i + 1 + k];
      }
    }
  }

  /** `StripTrailing` removes exactly the run of `c` at the end. */
  lemma {:induction false} StripTrailingSpec(s: string, c: char)
    ensures StripTrailing(s, c) <= s
    ensures StripTrailing(s, c) == [] || StripTrailing(s, c)[|StripTrailing(s, c)| - 1] != c
    ensures forall j :: |StripTrailing(s, c)| <= j < |s| ==> s[j] == c
    decreases |s|
  {
    if s != [] && s[|s| - 1] == c {
      StripTrailingSpec(s[..|s| - 1], c);
    }
  }

  /** `BeforeFirst` is the prefix before the first `c`. */
  lemma {:induction false} BeforeFirstSpec(s: string, c: char)
    ensures BeforeFirst(s, c) <= s && c !in BeforeFirst(s, c)
    ensures |BeforeFirst(s, c)| < |s| ==> s[|BeforeFirst(s, c)|] == c
    decreases |s|
  {
    if s != [] && s[0] != c {
      BeforeFirstSpec(s[1..], c);
      assert s == [s[0]] + s[1..];
    }
  }

  /** `FromFirst` is the suffix from the first `c`, and nothing before it is a `c`. */
  lemma {:induction false} FromFirstSpec(s: string, c: char)
    ensures |FromFirst(s, c)| <= |s| && FromFirst(s, c) == s[|s| - |FromFirst(s, c)|..]
    ensures FromFirst(s, c) == [] || FromFirst(s, c)[0] == c
    ensures c !in s[..|s| - |FromFirst(s, c)|]
    decreases |s|
  {
    if s != [] && s[0] != c {
      FromFirstSpec(s[1..], c);
      var t := FromFirst(s, c);
      assert s[..|s| - |t|] == [s[0]] + s[1..][..|s| - 1 - |t|];
    }
  }

  /**
   * `Trim` keeps one slice of its input: everything before the slice and everything after
   * it is trimmable, and the slice has nothing to trim at either end.
   */
  lemma {:induction false} TrimSpec(s: string)
    ensures var i := |s| - |TrimStart(s)|;
      && 0 <= i <= i + |Trim(s)| <= |s|
      && Trim(s) == s[i..i + |Trim(s)|]
      && (forall k :: 0 <= k < i ==> IsTrimmed(s[k]))
      && (forall k :: i + |Trim(s)| <= k < |s| ==> IsTrimmed(s[k]))
    ensures Trim(s) == [] || (!IsTrimmed(Trim(s)[0]) && !IsTrimmed(Trim(s)[|Trim(s)| - 1]))
  {
    TrimStartSpec(s);
    var u := TrimStart(s);
    TrimEndSpec(u);
    var t := TrimEnd(u);
    var i := |s| - |u|;
    assert t == u[..|t|];
    assert t == s[i..i + |t|];
    forall k | i + |t| <= k < |s|
      ensures IsTrimmed(s[k])
    {
      assert s[k] == u[k - i];
    }
    if t != [] {
      assert t[0] == u[0];
    }
  }

  /** `TrimStart` drops trimmable characters only, and what it keeps starts with one that is kept. */
  lemma {:induction false} TrimStartSpec(s: string)
    ensures |TrimStart(s)| <= |s| && TrimStart(s) == s[|s| - |TrimStart(s)|..]
    ensures forall k :: 0 <= k < |s| - |TrimStart(s)| ==> IsTrimmed(s[k])
    ensures TrimStart(s) == [] || !IsTrimmed(TrimStart(s)[0])
    decreases |s|
  {
    if s != [] && IsTrimmed(s[0]) {
      TrimStartSpec(s[1..]);
      forall k | 1 <= k < |s| - |TrimStart(s)|
        ensures IsTrimmed(s[k])
      {
        assert s[k] == s[1..][k - 1];
      }
    }
  }

  /** `TrimEnd` drops trimmable characters only, and what it keeps ends with one that is kept. */
  lemma {:induction false} TrimEndSpec(s: string)
    ensures TrimEnd(s) <= s
    ensures forall k :: |TrimEnd(s)| <= k < |s| ==> IsTrimmed(s[k])
    ensures TrimEnd(s) == [] || !IsTrimmed(TrimEnd(s)[|TrimEnd(s)| - 1])
    decreases |s|
  {
    if s != [] && IsTrimmed(s[|s| - 1]) {
      TrimEndSpec(s[..|s| - 1]);
    }
  }
}
