/** Decimal printing and parsing, padding, splitting and string order, as JavaScript's built-ins define them. */
module Strings {

  // ---------------------------------------------------------------------
  // Decimal numerals
  // ---------------------------------------------------------------------

  predicate IsDigit(c: char) { '0' <= c <= '9' }

  predicate AllDigits(s: string) { forall i :: 0 <= i < |s| ==> IsDigit(s[i]) }

  function DigitValue(c: char): (d: nat)
    requires IsDigit(c)
    ensures d < 10
  {
    (c as int) - ('0' as int)
  }

  function Digit(d: nat): (c: char)
    requires d < 10
    ensures IsDigit(c) && DigitValue(c) == d
  {
    (d + '0' as int) as char
  }

  /** `n.toString()` for a non-negative integer. */
  function NatToString(n: nat): (s: string)
    ensures s != "" && AllDigits(s)
  {
    if n < 10 then [Digit(n)] else NatToString(n / 10) + [Digit(n % 10)]
  }

  /** `n.toString()` for any integer. */
  function IntToString(n: int): (s: string) {
    if n < 0 then "-" + NatToString(-n) else NatToString(n)
  }

  /** The number a non-empty digit string denotes (`BigInt(s)`, `parseInt(s, 10)`). */
  function ParseNat(s: string): (n: nat)
    requires AllDigits(s)
  {
    if s == "" then 0 else 10 * ParseNat(s[..|s| - 1]) + DigitValue(s[|s| - 1])
  }

  lemma {:induction false} ParseOfPrinted(n: nat)
    ensures ParseNat(NatToString(n)) == n
  {
    if n >= 10 {
      ParseOfPrinted(n / 10);
      var s := NatToString(n);
      assert s[..|s| - 1] == NatToString(n / 10);
    }
  }

  lemma NatToStringInjective(m: nat, n: nat)
    requires NatToString(m) == NatToString(n)
    ensures m == n
  {
    ParseOfPrinted(m);
    ParseOfPrinted(n);
  }

  lemma IntToStringInjective(m: int, n: int)
    requires IntToString(m) == IntToString(n)
    ensures m == n
  {
    assert IsDigit(NatToString(if m < 0 then -m else m)[0]);
    assert IsDigit(NatToString(if n < 0 then -n else n)[0]);
    if m < 0 && n < 0 {
      assert IntToString(m)[1..] == NatToString(-m);
      assert IntToString(n)[1..] == NatToString(-n);
      NatToStringInjective(-m, -n);
    } else if m >= 0 && n >= 0 {
      NatToStringInjective(m, n);
    }
    assert m < 0 <==> IntToString(m)[0] == '-';
    assert n < 0 <==> IntToString(n)[0] == '-';
  }

  function Pow10(k: nat): (p: nat)
    ensures p >= 1
  {
    if k == 0 then 1 else 10 * Pow10(k - 1)
  }

  lemma {:induction false} PrintedLength(n: nat, k: nat)
    requires n < Pow10(k) && k > 0
    ensures |NatToString(n)| <= k
  {
    if n >= 10 {
      assert Pow10(1) == 10 * Pow10(0);
      PrintedLength(n / 10, k - 1);
    }
  }

  /** `s.padStart(width, "0")`. */
  function PadStart(s: string, width: nat): (r: string)
    ensures |r| == if |s| >= width then |s| else width
    ensures AllDigits(s) ==> AllDigits(r)
    decreases width - |s|
  {
    if |s| >= width then s else PadStart("0" + s, width)
  }

  lemma {:induction false} ParseLeadingZero(s: string)
    requires AllDigits(s)
    ensures AllDigits("0" + s) && ParseNat("0" + s) == ParseNat(s)
  {
    if s == "" {
      assert ("0" + s)[..0] == "";
    } else {
      ParseLeadingZero(s[..|s| - 1]);
      assert ("0" + s)[..|s|] == "0" + s[..|s| - 1];
    }
  }

  lemma {:induction false} ParseOfPadded(s: string, width: nat)
    requires AllDigits(s)
    ensures ParseNat(PadStart(s, width)) == ParseNat(s)
    decreases width - |s|
  {
    if |s| < width {
      ParseLeadingZero(s);
      ParseOfPadded("0" + s, width);
    }
  }

  // ---------------------------------------------------------------------
  // String order
  // ---------------------------------------------------------------------

  /** `a < b` on strings. */
  predicate StrLess(a: string, b: string) {
    if b == "" then false
    else if a == "" then true
    else a[0] < b[0] || (a[0] == b[0] && StrLess(a[1..], b[1..]))
  }

  predicate StrLeq(a: string, b: string) { a == b || StrLess(a, b) }

  lemma {:induction false} StrLessTotal(a: string, b: string)
    ensures a == b || StrLess(a, b) || StrLess(b, a)
    ensures !(StrLess(a, b) && StrLess(b, a))
    ensures !StrLess(a, a)
  {
    if a != "" {
      StrLessTotal(a[1..], a[1..]);
    }
    if a != "" && b != "" {
      StrLessTotal(a[1..], b[1..]);
      assert a == [a[0]] + a[1..] && b == [b[0]] + b[1..];
    }
  }

  lemma {:induction false} StrLessTransitive(a: string, b: string, c: string)
    requires StrLess(a, b) && StrLess(b, c)
    ensures StrLess(a, c)
  {
    if a != "" && a[0] == b[0] == c[0] {
      StrLessTransitive(a[1..], b[1..], c[1..]);
    }
  }

  /** Prefixes of equal length are compared first. */
  lemma {:induction false} StrLessConcat(a: string, r: string, b: string, s: string)
    requires |a| == |b|
    ensures StrLess(a + r, b + s) <==> StrLess(a, b) || (a == b && StrLess(r, s))
  {
    if a == "" {
      assert a + r == r && b + s == s;
    } else {
      assert (a + r)[1..] == a[1..] + r && (b + s)[1..] == b[1..] + s;
      assert a == [a[0]] + a[1..] && b == [b[0]] + b[1..];
      StrLessConcat(a[1..], r, b[1..], s);
    }
  }

  /** A common separator between equally long heads does not affect the order. */
  lemma StrLessSeparated(a: string, b: string, c: string, d: string, m: string)
    requires |a| == |c|
    ensures StrLess(a + m + b, c + m + d) <==> StrLess(a, c) || (a == c && StrLess(b, d))
  {
    StrLessConcat(a + m, b, c + m, d);
    StrLessConcat(a, m, c, m);
    StrLessTotal(m, m);
    assert (a + m)[..|a|] == a && (c + m)[..|c|] == c;
  }

  /** Digit strings of one length are ordered like the numbers they denote. */
  lemma {:induction false} NumericOrder(a: string, b: string)
    requires |a| == |b| && AllDigits(a) && AllDigits(b)
    ensures StrLess(a, b) <==> ParseNat(a) < ParseNat(b)
    ensures a == b <==> ParseNat(a) == ParseNat(b)
  {
    if a != "" {
      var n := |a| - 1;
      NumericOrder(a[..n], b[..n]);
      StrLessConcat(a[..n], a[n..], b[..n], b[n..]);
      assert a == a[..n] + a[n..] && b == b[..n] + b[n..];
      SingleCharOrder(a[n..], b[n..]);
    }
  }

  lemma SingleCharOrder(a: string, b: string)
    requires |a| == |b| == 1
    ensures StrLess(a, b) <==> a[0] < b[0]
    ensures a == b <==> a[0] == b[0]
  {
    assert a[1..] == "" && b[1..] == "";
  }

  // ---------------------------------------------------------------------
  // Splitting on one character
  // ---------------------------------------------------------------------

  predicate Free(s: string, c: char) { c !in s }

  /** `s.split(c)` for a one-character separator. */
  function Split(s: string, c: char): (parts: seq<string>)
    ensures |parts| >= 1
  {
    if s == "" then [""]
    else
      var rest := Split(s[1..], c);
      if s[0] == c then [""] + rest else [[s[0]] + rest[0]] + rest[1..]
  }

  lemma {:induction false} SplitFree(s: string, c: char)
    requires Free(s, c)
    ensures Split(s, c) == [s]
  {
    if s != "" {
      SplitFree(s[1..], c);
      assert s == [s[0]] + s[1..];
    }
  }

  lemma {:induction false} SplitAt(a: string, b: string, c: char)
    requires Free(a, c)
    ensures Split(a + [c] + b, c) == [a] + Split(b, c)
  {
    var s := a + [c] + b;
    if a == "" {
      assert s[1..] == b;
    } else {
      assert s[1..] == a[1..] + [c] + b;
      SplitAt(a[1..], b, c);
      assert a == [a[0]] + a[1..];
    }
  }

  /** Joining with the separator undoes the split. */
  function Join(parts: seq<string>, c: char): (s: string)
    requires |parts| >= 1
  {
    if |parts| == 1 then parts[0] else parts[0] + [c] + Join(parts[1..], c)
  }

  lemma {:induction false} JoinSplit(s: string, c: char)
    ensures Join(Split(s, c), c) == s
    ensures forall i :: 0 <= i < |Split(s, c)| ==> Free(Split(s, c)[i], c)
  {
    if s != "" {
      JoinSplit(s[1..], c);
      var rest := Split(s[1..], c);
      if s[0] == c {
        assert Split(s, c)[1..] == rest;
      } else {
        assert Split(s, c)[1..] == rest[1..];
        if |rest| > 1 {
          assert Join(Split(s, c), c) == [s[0]] + rest[0] + [c] + Join(rest[1..], c);
        }
      }
    }
  }

  // ---------------------------------------------------------------------
  // Cutting at a delimiter
  // ---------------------------------------------------------------------

  /** The text before the first `c` is determined when neither prefix contains it. */
  lemma FirstCut(a: string, r: string, b: string, s: string, c: char)
    requires Free(a, c) && Free(b, c)
    requires a + [c] + r == b + [c] + s
    ensures a == b && r == s
  {
    var t := a + [c] + r;
    assert t == b + [c] + s;
    assert t[|a|] == c && t[|b|] == c;
    assert forall i :: 0 <= i < |a| ==> t[i] == a[i];
    assert forall i :: 0 <= i < |b| ==> t[i] == b[i];
    assert |a| == |b|;
    assert a == t[..|a|] && b == t[..|b|];
    assert r == t[|a| + 1..] && s == t[|b| + 1..];
  }

  /** Likewise for the text after the last `c`. */
  lemma LastCut(r: string, a: string, s: string, b: string, c: char)
    requires Free(a, c) && Free(b, c)
    requires r + [c] + a == s + [c] + b
    ensures a == b && r == s
  {
    var t := r + [c] + a;
    assert t == s + [c] + b;
    assert t[|r|] == c && t[|s|] == c;
    assert forall i :: |r| < i < |t| ==> t[i] == a[i - |r| - 1];
    assert forall i :: |s| < i < |t| ==> t[i] == b[i - |s| - 1];
    assert |r| == |s|;
    assert r == t[..|r|] && s == t[..|s|];
    assert a == t[|r| + 1..] && b == t[|s| + 1..];
  }

  lemma DigitsFree(s: string, c: char)
    requires AllDigits(s) && !IsDigit(c)
    ensures Free(s, c)
  {
  }

  lemma IntToStringFree(n: int, c: char)
    requires !IsDigit(c) && c != '-'
    ensures Free(IntToString(n), c)
  {
    DigitsFree(NatToString(if n < 0 then -n else n), c);
  }
}
