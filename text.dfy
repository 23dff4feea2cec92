/**
 * String helpers the two Python modules rely on: the case mapping of
 * `str.lower()` / `str.upper()`, the decimal text of `str(int)`, and the
 * clamping slice `s[lo:hi]`.
 */
module Text {

  function Min(a: int, b: int): int { if a <= b then a else b }

  /** `str.lower()` on one character, restricted to ASCII letters. */
  function LowerChar(c: char): char
  {
    if 'A' <= c <= 'Z' then (c as int + 32) as char else c
  }

  /** `str.upper()` on one character, restricted to ASCII letters. */
  function UpperChar(c: char): char
  {
    if 'a' <= c <= 'z' then (c as int - 32) as char else c
  }

  function Lower(s: string): (r: string)
    ensures |r| == |s|
    ensures forall i :: 0 <= i < |s| ==> r[i] == LowerChar(s[i])
  {
    if s == [] then [] else [LowerChar(s[0])] + Lower(s[1..])
  }

  function Upper(s: string): (r: string)
    ensures |r| == |s|
    ensures forall i :: 0 <= i < |s| ==> r[i] == UpperChar(s[i])
  {
    if s == [] then [] else [UpperChar(s[0])] + Upper(s[1..])
  }

  /** A string made only of the characters `A`..`Z`, `_` is its own upper-case form. */
  lemma UpperOfUpperCase(s: string)
    requires forall i :: 0 <= i < |s| ==> 'A' <= s[i] <= 'Z' || s[i] == '_'
    ensures Upper(s) == s
  {
  }

  predicate IsDigit(c: char) { '0' <= c <= '9' }

  /** Non-empty and made only of decimal digits. */
  predicate IsDecimal(s: string)
  {
    |s| > 0 && forall i :: 0 <= i < |s| ==> IsDigit(s[i])
  }

  function DigitChar(d: nat): (c: char)
    requires d < 10
    ensures IsDigit(c)
  {
    ('0' as int + d) as char
  }

  /** `str(n)` for a non-negative Python int: its decimal digits, no leading zero. */
  function NatToString(n: nat): (s: string)
    ensures IsDecimal(s)
    ensures s[0] == '0' ==> n == 0
    decreases n
  {
    if n < 10 then [DigitChar(n)]
    else
      var front := NatToString(n / 10);
      assert (front + [DigitChar(n % 10)])[0] == front[0];
      front + [DigitChar(n % 10)]
  }

  /** The value of a string of decimal digits (the inverse of NatToString). */
  function ParseNat(s: string): nat
    requires forall i :: 0 <= i < |s| ==> IsDigit(s[i])
  {
    if s == [] then 0
    else
      assert IsDigit(s[|s| - 1]);
      ParseNat(s[..|s| - 1]) * 10 + (s[|s| - 1] as int - '0' as int)
  }

  /** Reading back the decimal text of `n` gives `n`. */
  lemma {:induction false} ParseNatToString(n: nat)
    ensures ParseNat(NatToString(n)) == n
    decreases n
  {
    var s := NatToString(n);
    if n < 10 {
      assert s[..|s| - 1] == [];
    } else {
      assert s[..|s| - 1] == NatToString(n / 10);
      ParseNatToString(n / 10);
    }
  }

  /** Python's slice `s[lo:hi]` for non-negative bounds: both ends are clamped to `len(s)`. */
  function Slice(s: string, lo: nat, hi: nat): (r: string)
    requires lo <= hi
    ensures |r| == Min(hi, |s|) - Min(lo, |s|)
    ensures forall i :: 0 <= i < |r| ==> r[i] == s[lo + i]
  {
    s[Min(lo, |s|)..Min(hi, |s|)]
  }

  /** The characters of `s` other than `.`, in order. */
  function WithoutDots(s: string): (r: string)
  {
    if s == [] then [] else (if s[0] == '.' then [] else [s[0]]) + WithoutDots(s[1..])
  }

  lemma {:induction false} WithoutDotsAppend(a: string, b: string)
    ensures WithoutDots(a + b) == WithoutDots(a) + WithoutDots(b)
    decreases |a|
  {
    if a == [] {
      assert a + b == b;
    } else {
      assert (a + b)[1..] == a[1..] + b;
      WithoutDotsAppend(a[1..], b);
    }
  }

  lemma {:induction false} WithoutDotsNoDots(s: string)
    requires '.' !in s
    ensures WithoutDots(s) == s
    decreases |s|
  {
    if s != [] {
      WithoutDotsNoDots(s[1..]);
    }
  }

  /** Adjacent slices join into one slice. */
  lemma SliceSplit(s: string, lo: nat, mid: nat, hi: nat)
    requires lo <= mid <= hi
    ensures Slice(s, lo, mid) + Slice(s, mid, hi) == Slice(s, lo, hi)
  {
  }

  /** Removing the dots of `a.b.c` gives `abc` when the three parts have none. */
  lemma WithoutDotsOfDotted(a: string, b: string, c: string)
    requires '.' !in a && '.' !in b && '.' !in c
    ensures WithoutDots(a + "." + b + "." + c) == a + b + c
  {
    assert WithoutDots(".") == [];
    WithoutDotsNoDots(a);
    WithoutDotsNoDots(b);
    WithoutDotsNoDots(c);
    var x1 := a + ".";
    WithoutDotsAppend(a, ".");
    assert WithoutDots(x1) == a;
    var x2 := x1 + b;
    WithoutDotsAppend(x1, b);
    assert WithoutDots(x2) == a + b;
    var x3 := x2 + ".";
    WithoutDotsAppend(x2, ".");
    assert WithoutDots(x3) == a + b;
    WithoutDotsAppend(x3, c);
  }

  /** In `a.b.c`, when the parts have no dots, the dots are exactly the two separators. */
  lemma DotsOfDotted(a: string, b: string, c: string)
    requires '.' !in a && '.' !in b && '.' !in c
    ensures var x := a + "." + b + "." + c;
            forall i :: 0 <= i < |x| ==> (x[i] == '.' <==> i == |a| || i == |a| + 1 + |b|)
  {
    var x := a + "." + b + "." + c;
    forall i | 0 <= i < |x|
      ensures x[i] == '.' <==> i == |a| || i == |a| + 1 + |b|
    {
      if i < |a| {
        assert x[i] == a[i];
      } else if |a| < i < |a| + 1 + |b| {
        assert x[i] == b[i - |a| - 1];
      } else if i > |a| + 1 + |b| {
        assert x[i] == c[i - |a| - |b| - 2];
      }
    }
  }

  lemma ConcatAssoc<T>(a: seq<T>, b: seq<T>, c: seq<T>)
    ensures (a + b) + c == a + (b + c)
  {
  }

  /** `a + (b + m + d) + e` regrouped around its middle part `m`. */
  lemma Regroup<T>(a: seq<T>, b: seq<T>, m: seq<T>, d: seq<T>, e: seq<T>)
    ensures a + (b + m + d) + e == (a + b) + m + (d + e)
  {
  }
}
