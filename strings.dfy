/**
 * The few JavaScript string operations the handlers rely on:
 * `s.length`, `s.split('.')[0]`, `s.substring(0, n)`,
 * `s.replace(pattern, replacement)` with a string pattern, and the decimal
 * rendering of a number inside a template string.  A Dafny string is a
 * sequence of Unicode scalar values; JavaScript measures strings in UTF-16
 * code units, where a character outside the Basic Multilingual Plane takes two.
 */
module Strings {
  import opened Wrappers

  predicate IsPrefix(p: string, s: string)
  {
    |p| <= |s| && s[..|p|] == p
  }

  /** `s.split('.')[0]`: the text of `s` up to (not including) its first '.'. */
  function FirstSentence(s: string): (r: string)
    ensures IsPrefix(r, s)
    ensures '.' !in r
    ensures r == s || s[|r|] == '.'
  {
    if s == [] then []
    else if s[0] == '.' then []
    else [s[0]] + FirstSentence(s[1..])
  }

  /** How many UTF-16 code units encode `c`: two for a character above U+FFFF. */
  function CodeUnits(c: char): (n: nat)
    ensures n == 1 || n == 2
  {
    if c as int >= 0x1_0000 then 2 else 1
  }

  /** `s.length`: the length of `s` in UTF-16 code units. */
  function Utf16Length(s: string): (n: nat)
    ensures |s| <= n <= 2 * |s|
  {
    if s == [] then 0 else CodeUnits(s[0]) + Utf16Length(s[1..])
  }

  /** The code units of a concatenation are those of its parts. */
  lemma {:induction false} Utf16LengthAppend(s: string, t: string)
    ensures Utf16Length(s + t) == Utf16Length(s) + Utf16Length(t)
  {
    if s == [] {
      assert s + t == t;
    } else {
      assert (s + t)[1..] == s[1..] + t;
      Utf16LengthAppend(s[1..], t);
    }
  }

  /** `s.length` counts characters exactly when no character lies above U+FFFF. */
  lemma {:induction false} Utf16LengthBasicPlane(s: string)
    ensures Utf16Length(s) == |s| <==> forall k :: 0 <= k < |s| ==> CodeUnits(s[k]) == 1
  {
    if s != [] {
      Utf16LengthBasicPlane(s[1..]);
      if forall k :: 0 <= k < |s| ==> CodeUnits(s[k]) == 1 {
        assert forall k :: 0 <= k < |s| - 1 ==> CodeUnits(s[1..][k]) == 1 by {
          forall k | 0 <= k < |s| - 1 ensures CodeUnits(s[1..][k]) == 1 {
            assert s[1..][k] == s[k + 1];
          }
        }
      } else if Utf16Length(s) == |s| {
        assert CodeUnits(s[0]) == 1;
        forall k | 0 <= k < |s| ensures CodeUnits(s[k]) == 1 {
          if k > 0 {
            assert s[k] == s[1..][k - 1];
          }
        }
        assert false;
      }
    }
  }

  /** `s.substring(0, n)` for a non-negative `n`: the longest prefix of at most `n` code units.
      When the n-th unit is the first half of a surrogate pair, JavaScript keeps that
      lone half; a Dafny string cannot hold it, so the whole character is dropped. */
  function Truncate(s: string, n: nat): (r: string)
    ensures IsPrefix(r, s)
    ensures Utf16Length(r) <= n
    ensures Utf16Length(s) <= n ==> r == s
    ensures Utf16Length(s) > n ==> |r| < |s| && Utf16Length(r) + CodeUnits(s[|r|]) > n
    decreases |s|
  {
    if s == [] || CodeUnits(s[0]) > n then []
    else
      var rest := Truncate(s[1..], n - CodeUnits(s[0]));
      assert ([s[0]] + rest)[1..] == rest;
      [s[0]] + rest
  }

  /** A first character that fits is kept, and the rest is cut to what remains. */
  lemma TruncateStep(s: string, n: nat)
    requires s != [] && CodeUnits(s[0]) <= n
    ensures Truncate(s, n) == [s[0]] + Truncate(s[1..], n - CodeUnits(s[0]))
  {
  }

  /** A text of one-unit characters is cut after exactly `n` of them. */
  lemma {:induction false} TruncateBasicPlane(s: string, n: nat)
    requires forall k :: 0 <= k < |s| ==> CodeUnits(s[k]) == 1
    ensures Truncate(s, n) == if |s| <= n then s else s[..n]
    decreases |s|
  {
    if s != [] && n > 0 {
      var t := s[1..];
      forall k | 0 <= k < |t| ensures CodeUnits(t[k]) == 1 {
        assert t[k] == s[k + 1];
      }
      TruncateBasicPlane(t, n - 1);
      assert CodeUnits(s[0]) == 1;
      TruncateStep(s, n);
      if |s| > n {
        assert s[..n] == [s[0]] + t[..n - 1];
      } else {
        assert s == [s[0]] + t;
      }
    }
  }

  predicate OccursAt(s: string, pat: string, i: nat)
  {
    i + |pat| <= |s| && s[i..i + |pat|] == pat
  }

  /** `s.indexOf(pat)`, with None for -1: the first position where `pat` occurs. */
  function IndexOf(s: string, pat: string, from: nat := 0): (r: Option<nat>)
    requires from <= |s|
    ensures r.Some? ==> from <= r.value && OccursAt(s, pat, r.value)
    ensures r.Some? ==> forall j :: from <= j < r.value ==> !OccursAt(s, pat, j)
    ensures r.None? ==> forall j :: from <= j <= |s| ==> !OccursAt(s, pat, j)
    decreases |s| - from
  {
    if OccursAt(s, pat, from) then Some(from)
    else if from == |s| then None
    else IndexOf(s, pat, from + 1)
  }

  /** `s.replace(pat, rep)` with a string pattern: only the first occurrence is replaced. */
  function ReplaceFirst(s: string, pat: string, rep: string): (r: string)
    ensures (forall j :: 0 <= j <= |s| ==> !OccursAt(s, pat, j)) ==> r == s
    ensures forall i: nat :: OccursAt(s, pat, i) && (forall j :: 0 <= j < i ==> !OccursAt(s, pat, j)) ==>
      r == s[..i] + rep + s[i + |pat|..]
  {
    match IndexOf(s, pat)
    case None => s
    case Some(i) => s[..i] + rep + s[i + |pat|..]
  }

  /** Removing a pattern that the text starts with leaves the rest of the text... */
  lemma ReplaceLeadingPattern(s: string, pat: string)
    requires IsPrefix(pat, s)
    ensures ReplaceFirst(s, pat, "") == s[|pat|..]
  {
    assert OccursAt(s, pat, 0);
  }

  /** ...and a pattern that does not occur leaves the text unchanged. */
  lemma ReplaceAbsentPattern(s: string, pat: string)
    requires forall j :: 0 <= j <= |s| ==> !OccursAt(s, pat, j)
    ensures ReplaceFirst(s, pat, "") == s
  {
  }

  /** The decimal digit of a value below ten. */
  function DigitChar(d: nat): (c: char)
    requires d < 10
    ensures '0' <= c <= '9'
  {
    "0123456789"[d]
  }

  predicate IsDigit(c: char)
  {
    '0' <= c <= '9'
  }

  function DigitValue(c: char): (d: nat)
    requires IsDigit(c)
    ensures d < 10
  {
    (c as int - '0' as int) as nat
  }

  /** `String(n)` for a natural number: its decimal digits, most significant first. */
  function NatToString(n: nat): (r: string)
    ensures |r| > 0
    ensures forall i :: 0 <= i < |r| ==> IsDigit(r[i])
    ensures r[0] == '0' ==> n == 0
  {
    if n < 10 then [DigitChar(n)]
    else NatToString(n / 10) + [DigitChar(n % 10)]
  }

  /** The number a string of decimal digits denotes. */
  function DecimalValue(s: string): nat
    requires forall i :: 0 <= i < |s| ==> IsDigit(s[i])
  {
    if s == [] then 0
    else 10 * DecimalValue(s[..|s| - 1]) + DigitValue(s[|s| - 1])
  }

  lemma DigitRoundTrip(d: nat)
    requires d < 10
    ensures DigitValue(DigitChar(d)) == d
  {
  }

  /** The rendering is faithful: reading the digits back gives the number. */
  lemma {:induction false} NatToStringRoundTrip(n: nat)
    ensures DecimalValue(NatToString(n)) == n
  {
    var s := NatToString(n);
    if n < 10 {
      DigitRoundTrip(n);
      assert s[..|s| - 1] == [];
    } else {
      NatToStringRoundTrip(n / 10);
      DigitRoundTrip(n % 10);
      assert s[..|s| - 1] == NatToString(n / 10);
    }
  }

  /** Distinct numbers render differently. */
  lemma NatToStringInjective(m: nat, n: nat)
    requires NatToString(m) == NatToString(n)
    ensures m == n
  {
    NatToStringRoundTrip(m);
    NatToStringRoundTrip(n);
  }

  /** `String(x)` for an integer-valued number, with a leading '-' when negative. */
  function IntToString(x: int): (r: string)
    ensures |r| > 0
    ensures x < 0 <==> r[0] == '-'
    ensures x >= 0 ==> r == NatToString(x)
    ensures x < 0 ==> r[1..] == NatToString(-x)
  {
    if x < 0 then "-" + NatToString(-x) else NatToString(x)
  }
}
