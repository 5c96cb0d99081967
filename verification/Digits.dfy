/** Decimal strings: the `str(n)` / `int(s)` pair that every printer and scanner below relies on. */
module Digits {

  predicate IsDigit(c: char) { '0' <= c <= '9' }

  predicate AllDigits(s: string) { forall i :: 0 <= i < |s| ==> IsDigit(s[i]) }

  /** Python's `s.isdigit()` on ASCII text: at least one character, all of them digits. */
  predicate IsNumeral(s: string) { |s| > 0 && AllDigits(s) }

  /** A numeral as `str(n)` prints it: no leading zero unless it is the zero itself. */
  predicate Canonical(s: string) { IsNumeral(s) && (s[0] == '0' ==> |s| == 1) }

  function Abs(i: int): nat { if i < 0 then -i else i }

  function DigitValue(c: char): nat
    requires IsDigit(c)
  {
    c as int - '0' as int
  }

  function Str(n: nat): (s: string)
    ensures Canonical(s)
    ensures s[0] == '0' ==> n == 0
  {
    if n < 10 then [(n + '0' as int) as char] else Str(n / 10) + [(n % 10 + '0' as int) as char]
  }

  function Val(s: string): nat
    requires AllDigits(s)
  {
    if s == [] then 0 else 10 * Val(s[..|s| - 1]) + DigitValue(s[|s| - 1])
  }

  /** `str(i)` for a signed integer. */
  function StrInt(i: int): string { if i < 0 then "-" + Str(-i) else Str(i) }

  lemma {:induction false} ValStr(n: nat)
    ensures Val(Str(n)) == n
  {
    if n >= 10 {
      ValStr(n / 10);
      assert Str(n)[..|Str(n)| - 1] == Str(n / 10);
    }
  }

  lemma {:induction false} ValPositive(s: string)
    requires IsNumeral(s) && s[0] != '0'
    ensures Val(s) > 0
  {
    if |s| > 1 {
      ValPositive(s[..|s| - 1]);
    }
  }

  lemma {:induction false} StrVal(s: string)
    requires Canonical(s)
    ensures Str(Val(s)) == s
  {
    if |s| > 1 {
      var p := s[..|s| - 1];
      ValPositive(p);
      StrVal(p);
      assert s == p + [s[|s| - 1]];
    }
  }

  lemma StrInjective(a: nat, b: nat)
    requires Str(a) == Str(b)
    ensures a == b
  {
    ValStr(a);
    ValStr(b);
  }

  /** Python's `s.lstrip("0") or "0"` on a digit run. */
  function StripZeros(s: string): string
    requires AllDigits(s)
  {
    if s == [] then "0" else if s[0] == '0' then StripZeros(s[1..]) else s
  }

  lemma {:induction false} ValLeadingZero(s: string)
    requires AllDigits(s)
    ensures AllDigits("0" + s) && Val("0" + s) == Val(s)
  {
    if s == [] {
      assert ("0" + s)[..0] == [];
    } else {
      ValLeadingZero(s[..|s| - 1]);
      assert ("0" + s)[..|s|] == "0" + s[..|s| - 1];
    }
  }

  /** Stripping zeros re-prints the value: this is why zero-padding cannot tell two invoices apart. */
  lemma {:induction false} StripZerosIsStrVal(s: string)
    requires AllDigits(s)
    ensures StripZeros(s) == Str(Val(s))
  {
    if s != [] {
      if s[0] == '0' {
        StripZerosIsStrVal(s[1..]);
        ValLeadingZero(s[1..]);
        assert s == "0" + s[1..];
      } else {
        StrVal(s);
      }
    }
  }

  /** `padStart(2, "0")` and `{:02d}` for a two-digit field. */
  function Pad2(n: nat): (s: string)
    requires n < 100
    ensures |s| == 2 && AllDigits(s) && Val(s) == n
  {
    var s := [(n / 10 + '0' as int) as char, (n % 10 + '0' as int) as char];
    assert s[..1] == [s[0]] && s[..1][..0] == [];
    assert Val(s[..1]) == 10 * Val(s[..1][..0]) + DigitValue(s[0]);
    s
  }

  /** Python's `s.lstrip("-")`. */
  function LStripDash(s: string): (r: string)
    ensures r == [] || r[0] != '-'
    ensures s != [] && s[0] != '-' ==> r == s
  {
    if s != [] && s[0] == '-' then LStripDash(s[1..]) else s
  }

  /** Python's `s.replace(c, "")` for one character. */
  function Remove(s: string, c: char): (r: string)
    ensures |r| <= |s|
    ensures s != [] && s[0] != c ==> r != [] && r[0] == s[0]
  {
    if s == [] then [] else if s[0] == c then Remove(s[1..], c) else [s[0]] + Remove(s[1..], c)
  }

  lemma {:induction false} RemoveAbsent(s: string, c: char)
    requires forall i :: 0 <= i < |s| ==> s[i] != c
    ensures Remove(s, c) == s
  {
    if s != [] {
      RemoveAbsent(s[1..], c);
    }
  }

  lemma {:induction false} RemoveConcat(a: string, b: string, c: char)
    ensures Remove(a + b, c) == Remove(a, c) + Remove(b, c)
  {
    if a == [] {
      assert a + b == b;
    } else {
      var t := a[1..];
      RemoveConcat(t, b, c);
      assert (a + b)[1..] == t + b && (a + b)[0] == a[0];
      if a[0] != c {
        assert [a[0]] + (Remove(t, c) + Remove(b, c)) == ([a[0]] + Remove(t, c)) + Remove(b, c);
      }
    }
  }

  lemma Assoc<T>(a: seq<T>, b: seq<T>, c: seq<T>)
    ensures (a + b) + c == a + (b + c)
  {
  }

  /** Growing the padding of a sequence on either side. */
  lemma PadLeft<T>(x: T, rest: seq<T>, before: seq<T>, core: seq<T>, after: seq<T>)
    requires rest == before + core + after
    ensures [x] + rest == ([x] + before) + core + after
  {
  }

  lemma PadRight<T>(x: T, rest: seq<T>, before: seq<T>, core: seq<T>, after: seq<T>)
    requires rest == before + core + after
    ensures rest + [x] == before + core + (after + [x])
  {
  }
}
