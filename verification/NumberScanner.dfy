/** The number tokenizer of validator.py: the regular expression `\d[\d,]*(?:\.\d+)?`, the
    normaliser, and how the token list behaves under concatenation of text. */
module NumberScanner {
  import opened Digits
  import opened IndianGrouping

  // ----- the regular expression -----

  predicate InRun(c: char) { IsDigit(c) || c == ',' }

  /** A character that can neither belong to a number nor extend one. */
  predicate Separates(c: char) { !InRun(c) && c != '.' }

  predicate AllInRun(s: string) { forall i :: 0 <= i < |s| ==> InRun(s[i]) }

  /** Length of the longest prefix of `s` over `[\d,]`. */
  function RunLen(s: string): (n: nat)
    ensures n <= |s|
  {
    if s == [] || !InRun(s[0]) then 0 else 1 + RunLen(s[1..])
  }

  lemma {:induction false} RunLenIs(s: string)
    ensures AllInRun(s[..RunLen(s)])
    ensures RunLen(s) < |s| ==> !InRun(s[RunLen(s)])
  {
    if s != [] && InRun(s[0]) {
      RunLenIs(s[1..]);
      assert s[..RunLen(s)] == [s[0]] + s[1..][..RunLen(s[1..])];
    }
  }

  /** Length of the longest prefix of `s` over `\d`. */
  function DigitLen(s: string): (n: nat)
    ensures n <= |s|
  {
    if s == [] || !IsDigit(s[0]) then 0 else 1 + DigitLen(s[1..])
  }

  lemma {:induction false} DigitLenIs(s: string)
    ensures AllDigits(s[..DigitLen(s)])
  {
    if s != [] && IsDigit(s[0]) {
      DigitLenIs(s[1..]);
      assert s[..DigitLen(s)] == [s[0]] + s[1..][..DigitLen(s[1..])];
    }
  }

  /** Length of the greedy match at the start of `s`. */
  function MatchLen(s: string): (n: nat)
    requires s != [] && IsDigit(s[0])
    ensures 1 <= n <= |s|
  {
    var r := RunLen(s);
    if r < |s| && s[r] == '.' && DigitLen(s[r + 1..]) > 0 then r + 1 + DigitLen(s[r + 1..]) else r
  }

  /** `w` is a run over `[\d,]` of length `r`, then nothing or a point and digits. */
  predicate SplitsAt(w: string, r: nat) {
    1 <= r <= |w| && AllInRun(w[..r]) &&
    (r == |w| || (r + 1 < |w| && w[r] == '.' && AllDigits(w[r + 1..])))
  }

  /** The language of the regular expression. */
  ghost predicate InLanguage(w: string) { w != [] && IsDigit(w[0]) && exists r: nat :: SplitsAt(w, r) }

  lemma {:induction false} DigitLenAtLeast(s: string, k: nat)
    requires k <= |s| && AllDigits(s[..k])
    ensures DigitLen(s) >= k
  {
    if k > 0 {
      assert s[..k][0] == s[0];
      assert s[1..][..k - 1] == s[..k][1..];
      DigitLenAtLeast(s[1..], k - 1);
    }
  }

  lemma {:induction false} RunAtLeast(s: string, q: nat)
    requires q <= |s| && AllInRun(s[..q])
    ensures RunLen(s) >= q
  {
    if q > 0 {
      assert s[..q][0] == s[0] && s[1..][..q - 1] == s[..q][1..];
      RunAtLeast(s[1..], q - 1);
    }
  }

  lemma RunLenAt(s: string, q: nat)
    requires q < |s| && AllInRun(s[..q]) && !InRun(s[q])
    ensures RunLen(s) == q
  {
    RunAtLeast(s, q);
    RunLenIs(s);
  }

  lemma Slices(s: string, r: nat, n: nat)
    requires r < n <= |s|
    ensures s[..n][..r] == s[..r] && s[..n][r] == s[r] && s[..n][r + 1..] == s[r + 1..][..n - r - 1]
  {
  }

  lemma RunSplits(s: string, r: nat)
    requires 1 <= r <= |s| && AllInRun(s[..r])
    ensures SplitsAt(s[..r], r)
  {
    assert s[..r][..r] == s[..r];
  }

  lemma PointSplits(s: string, r: nat, tail: string, k: nat)
    requires 1 <= r < |s| && AllInRun(s[..r]) && s[r] == '.' && tail == s[r + 1..]
    requires 0 < k <= |tail| && AllDigits(tail[..k])
    ensures SplitsAt(s[..r + 1 + k], r)
  {
    Slices(s, r, r + 1 + k);
  }

  lemma SplitFacts(s: string, r: nat, tail: string, k: nat, n: nat)
    requires 1 <= r <= |s| && AllInRun(s[..r]) && tail == (if r < |s| then s[r + 1..] else [])
    requires k <= |tail| && AllDigits(tail[..k])
    requires n == if r < |s| && s[r] == '.' && k > 0 then r + 1 + k else r
    ensures SplitsAt(s[..n], r)
  {
    if n == r {
      RunSplits(s, r);
    } else {
      PointSplits(s, r, tail, k);
    }
  }

  /** The greedy match splits at its run. */
  lemma MatchSplits(s: string)
    requires s != [] && IsDigit(s[0])
    ensures SplitsAt(s[..MatchLen(s)], RunLen(s))
  {
    var r := RunLen(s);
    var tail := if r < |s| then s[r + 1..] else [];
    RunLenIs(s);
    DigitLenIs(tail);
    SplitFacts(s, r, tail, DigitLen(tail), MatchLen(s));
  }

  lemma NoLonger(s: string, k: nat, q: nat)
    requires s != [] && IsDigit(s[0]) && k <= |s| && SplitsAt(s[..k], q)
    ensures k <= MatchLen(s)
  {
    if q == k {
      assert s[..k][..q] == s[..q];
      RunAtLeast(s, q);
    } else {
      Slices(s, q, k);
      RunLenAt(s, q);
      DigitLenAtLeast(s[q + 1..], k - q - 1);
    }
  }

  /** The greedy match is in the language, and no longer prefix is: greedy is maximal munch. */
  lemma MatchIsLongest(s: string, k: nat)
    requires s != [] && IsDigit(s[0]) && k <= |s|
    ensures InLanguage(s[..MatchLen(s)])
    ensures InLanguage(s[..k]) ==> k <= MatchLen(s)
  {
    MatchSplits(s);
    if InLanguage(s[..k]) {
      var q: nat :| SplitsAt(s[..k], q);
      NoLonger(s, k, q);
    }
  }

  // ----- normalisation -----

  /** Python's `s.replace("Rs", "")`. */
  function RemoveRs(s: string): string {
    if s == [] then []
    else if |s| >= 2 && s[0] == 'R' && s[1] == 's' then RemoveRs(s[2..])
    else [s[0]] + RemoveRs(s[1..])
  }

  predicate Trimmable(c: char) { c == '.' || c == '%' || c == ':' || c == ' ' }

  /** Python's `s.strip(".%: ")`. */
  function StripPunctuation(s: string): string {
    if s != [] && Trimmable(s[0]) then StripPunctuation(s[1..])
    else if s != [] && Trimmable(s[|s| - 1]) then StripPunctuation(s[..|s| - 1])
    else s
  }

  function Normalise(token: string): string {
    StripPunctuation(RemoveRs(Remove(Remove(token, ','), RUPEE)))
  }

  /** The tokens one match contributes: its normal form, or nothing when that is not a numeral. */
  function Emit(raw: string): seq<string> {
    if IsNumeral(LStripDash(Normalise(raw))) then [Normalise(raw)] else []
  }

  predicate NumberChars(s: string) { forall i :: 0 <= i < |s| ==> InRun(s[i]) || s[i] == '.' }

  lemma {:induction false} RemoveRsNoop(s: string)
    requires NumberChars(s)
    ensures RemoveRs(s) == s
  {
    if s != [] {
      RemoveRsNoop(s[1..]);
    }
  }

  lemma {:induction false} RemoveKeeps(s: string, c: char)
    requires NumberChars(s)
    ensures NumberChars(Remove(s, c))
  {
    if s != [] {
      RemoveKeeps(s[1..], c);
    }
  }

  lemma {:induction false} RemoveCommas(s: string)
    requires AllInRun(s)
    ensures AllDigits(Remove(s, ','))
  {
    if s != [] {
      RemoveCommas(s[1..]);
    }
  }

  /** On a match, only the commas matter: nothing else is there to strip. */
  lemma NormaliseMatch(raw: string)
    requires NumberChars(raw) && raw != [] && IsDigit(raw[0])
    requires var t := Remove(raw, ','); t != [] && IsDigit(t[|t| - 1])
    ensures Normalise(raw) == Remove(raw, ',')
  {
    var t := Remove(raw, ',');
    RemoveKeeps(raw, ',');
    RemoveAbsent(t, RUPEE);
    RemoveRsNoop(t);
    StripIdle(t);
  }

  lemma StripIdle(t: string)
    requires t != [] && !Trimmable(t[0]) && !Trimmable(t[|t| - 1])
    ensures StripPunctuation(t) == t
  {
  }

  /** A match without a decimal point is kept, commas deleted. */
  lemma EmitWhole(raw: string)
    requires AllInRun(raw) && raw != [] && IsDigit(raw[0])
    ensures Emit(raw) == [Remove(raw, ',')] && IsNumeral(Remove(raw, ','))
  {
    RemoveCommas(raw);
    NormaliseMatch(raw);
  }

  /** A match with a decimal point is dropped, not rejected. */
  lemma EmitDecimal(raw: string, r: nat)
    requires raw != [] && IsDigit(raw[0]) && SplitsAt(raw, r) && r < |raw|
    ensures Emit(raw) == []
  {
    var whole, frac := raw[..r], raw[r + 1..];
    assert raw == whole + ("." + frac);
    RemoveConcat(whole, "." + frac, ',');
    RemoveAbsent("." + frac, ',');
    RemoveCommas(whole);
    var t := Remove(raw, ',');
    assert t == Remove(whole, ',') + ("." + frac);
    assert t[|t| - 1] == frac[|frac| - 1];
    NormaliseMatch(raw);
    assert t[|Remove(whole, ',')|] == '.';
  }

  // ----- the token list -----

  function Tokens(s: string): seq<string> {
    if s == [] then []
    else if !IsDigit(s[0]) then Tokens(s[1..])
    else Emit(s[..MatchLen(s)]) + Tokens(s[MatchLen(s)..])
  }

  /** The body of the loop: normalise one match, and skip it unless it is a numeral. */
  method TokenOf(raw: string) returns (r: seq<string>)
    ensures r == Emit(raw)
  {
    var norm := Normalise(raw);
    if !IsNumeral(LStripDash(norm)) {
      return [];
    }
    r := [norm];
  }

  lemma SkipOne(text: string, pos: nat)
    requires pos < |text| && !IsDigit(text[pos])
    ensures Tokens(text[pos..]) == Tokens(text[pos + 1..])
  {
    assert text[pos..][1..] == text[pos + 1..];
  }

  lemma TakeMatch(tokens: seq<string>, text: string, pos: nat, n: nat)
    requires pos < |text| && IsDigit(text[pos]) && n == MatchLen(text[pos..])
    ensures tokens + Tokens(text[pos..]) == (tokens + Emit(text[pos..pos + n])) + Tokens(text[pos + n..])
  {
    var x, y := text[pos..pos + n], text[pos + n..];
    assert text[pos..] == x + y;
    TokensSplit(x, y);
    Assoc(tokens, Emit(x), Tokens(y));
  }

  method ExtractNumberTokens(text: string) returns (tokens: seq<string>)
    ensures tokens == Tokens(text)
  {
    tokens := [];
    var pos := 0;
    assert text[0..] == text;
    while pos < |text|
      invariant pos <= |text|
      invariant tokens + Tokens(text[pos..]) == Tokens(text)
    {
      if !IsDigit(text[pos]) {
        SkipOne(text, pos);
        pos := pos + 1;
        continue;
      }
      var n := MatchLen(text[pos..]);
      var emitted := TokenOf(text[pos..pos + n]);
      TakeMatch(tokens, text, pos, n);
      tokens := tokens + emitted;
      pos := pos + n;
    }
    assert text[pos..] == [];
  }

  predicate HasPoint(s: string) { exists i :: 0 <= i < |s| && s[i] == '.' }

  /** A match is dropped exactly when it holds a decimal point, and kept as one numeral otherwise. */
  lemma EmitExactly(s: string)
    requires s != [] && IsDigit(s[0])
    ensures var m := s[..MatchLen(s)];
      (Emit(m) == [] <==> HasPoint(m)) && (Emit(m) != [] ==> Emit(m) == [Remove(m, ',')] && IsNumeral(Remove(m, ',')))
  {
    var n, r := MatchLen(s), RunLen(s);
    RunLenIs(s);
    if n == r {
      EmitWhole(s[..n]);
    } else {
      DecimalMatch(s);
      assert s[..n][r] == '.';
    }
  }

  /** Every token is a numeral; no sign survives. */
  lemma {:induction false} TokensAreNumerals(s: string)
    ensures forall t :: t in Tokens(s) ==> IsNumeral(t)
  {
    if s != [] {
      if !IsDigit(s[0]) {
        TokensAreNumerals(s[1..]);
      } else {
        TokensAreNumerals(s[MatchLen(s)..]);
        EmitExactly(s);
      }
    }
  }

  lemma DecimalMatch(s: string)
    requires s != [] && IsDigit(s[0]) && MatchLen(s) != RunLen(s)
    ensures Emit(s[..MatchLen(s)]) == []
  {
    MatchSplits(s);
    EmitDecimal(s[..MatchLen(s)], RunLen(s));
  }

  lemma {:induction false} NoDigitsNoTokens(s: string)
    requires forall i :: 0 <= i < |s| ==> !IsDigit(s[i])
    ensures Tokens(s) == []
  {
    if s != [] {
      NoDigitsNoTokens(s[1..]);
    }
  }

  // ----- concatenation -----

  /** `b` cannot lengthen a number that ends just before it, except by a comma that is then deleted. */
  predicate Closes(b: string) {
    b == [] || Separates(b[0]) ||
    ((b[0] == ',' || b[0] == '.') && (|b| == 1 || Separates(b[1])))
  }

  lemma {:induction false} RunLenConcat(a: string, b: string)
    ensures RunLen(a + b) == if RunLen(a) < |a| then RunLen(a) else |a| + RunLen(b)
  {
    if a == [] {
      assert a + b == b;
    } else {
      assert (a + b)[1..] == a[1..] + b;
      if InRun(a[0]) {
        RunLenConcat(a[1..], b);
      }
    }
  }

  lemma {:induction false} DigitLenConcat(a: string, b: string)
    ensures DigitLen(a + b) == if DigitLen(a) < |a| then DigitLen(a) else |a| + DigitLen(b)
  {
    if a == [] {
      assert a + b == b;
    } else {
      assert (a + b)[1..] == a[1..] + b;
      if IsDigit(a[0]) {
        DigitLenConcat(a[1..], b);
      }
    }
  }

  lemma DigitsAfterPoint(a: string, b: string, k: nat)
    requires k <= |a| && Closes(b)
    ensures DigitLen((a + b)[k..]) == DigitLen(a[k..])
  {
    assert (a + b)[k..] == a[k..] + b;
    DigitLenConcat(a[k..], b);
  }

  /** A match that stops inside `a` is the same match in `a + b`. */
  lemma MatchInside(a: string, b: string)
    requires a != [] && IsDigit(a[0]) && Closes(b) && RunLen(a) < |a|
    ensures MatchLen(a + b) == MatchLen(a)
  {
    var r := RunLen(a);
    RunLenConcat(a, b);
    assert RunLen(a + b) == r && (a + b)[r] == a[r];
    if a[r] == '.' {
      DigitsAfterPoint(a, b, r + 1);
      assert DigitLen((a + b)[r + 1..]) == DigitLen(a[r + 1..]);
    }
  }

  /** A run that fills `a` stops at the seam, or one comma later. */
  lemma MatchAtSeam(a: string, b: string)
    requires a != [] && IsDigit(a[0]) && Closes(b) && RunLen(a) == |a|
    ensures MatchLen(a + b) == if b != [] && b[0] == ',' then |a| + 1 else |a|
  {
    RunLenConcat(a, b);
    if b != [] && b[0] == ',' {
      assert RunLen(b) == 1 + RunLen(b[1..]);
      var r := |a| + 1;
      if r < |a + b| {
        assert (a + b)[r] == b[1];
      }
    } else {
      assert RunLen(b) == 0;
      if b != [] && b[0] == '.' {
        assert (a + b)[|a| + 1..] == b[1..];
      }
    }
  }

  /** A text that starts with a match of length `|x|`. */
  lemma TokensSplit(x: string, y: string)
    requires x != [] && IsDigit(x[0]) && MatchLen(x + y) == |x|
    ensures Tokens(x + y) == Emit(x) + Tokens(y)
  {
    var s := x + y;
    assert s[..|x|] == x && s[|x|..] == y;
  }

  lemma InsideTokens(a: string, b: string)
    requires a != [] && IsDigit(a[0]) && Closes(b) && RunLen(a) < |a|
    ensures Tokens(a + b) == Emit(a[..MatchLen(a)]) + Tokens(a[MatchLen(a)..] + b)
  {
    MatchInside(a, b);
    var x, r := a[..MatchLen(a)], a[MatchLen(a)..];
    assert a == x + r;
    Assoc(x, r, b);
    TokensSplit(x, r + b);
  }

  /** Scanning distributes over a seam that `b` closes: the central fact about the scanner. */
  lemma {:induction false} TokensConcat(a: string, b: string)
    requires Closes(b)
    ensures Tokens(a + b) == Tokens(a) + Tokens(b)
    decreases |a|
  {
    var s := a + b;
    if a == [] {
      assert s == b;
    } else if !IsDigit(a[0]) {
      TokensConcat(a[1..], b);
      assert s[1..] == a[1..] + b;
    } else if RunLen(a) < |a| {
      var n := MatchLen(a);
      TokensConcat(a[n..], b);
      InsideTokens(a, b);
      Assoc(Emit(a[..n]), Tokens(a[n..]), Tokens(b));
    } else {
      SeamTokens(a, b);
    }
  }

  /** One whole match at the front of a text. */
  lemma TokensOfRun(raw: string, rest: string)
    requires AllInRun(raw) && raw != [] && IsDigit(raw[0]) && MatchLen(raw + rest) == |raw|
    ensures Tokens(raw + rest) == [Remove(raw, ',')] + Tokens(rest)
  {
    TokensSplit(raw, rest);
    EmitWhole(raw);
  }

  lemma {:induction false} RunLenFull(a: string)
    requires AllInRun(a)
    ensures RunLen(a) == |a|
  {
    if a != [] {
      RunLenFull(a[1..]);
    }
  }

  lemma TokensOfRunAlone(raw: string)
    requires AllInRun(raw) && raw != [] && IsDigit(raw[0])
    ensures Tokens(raw) == [Remove(raw, ',')]
  {
    RunLenFull(raw);
    assert raw + [] == raw;
    TokensOfRun(raw, []);
  }

  lemma SeamTokens(a: string, b: string)
    requires a != [] && IsDigit(a[0]) && Closes(b) && RunLen(a) == |a|
    ensures Tokens(a + b) == Tokens(a) + Tokens(b)
  {
    RunLenIs(a);
    assert a[..|a|] == a;
    MatchAtSeam(a, b);
    TokensOfRunAlone(a);
    if b != [] && b[0] == ',' {
      SeamComma(a, b, b[1..]);
    } else {
      TokensOfRun(a, b);
    }
  }

  lemma SeamComma(a: string, b: string, rest: string)
    requires AllInRun(a) && a != [] && IsDigit(a[0]) && b != [] && b[0] == ',' && rest == b[1..]
    requires MatchLen(a + b) == |a| + 1
    ensures Tokens(a + b) == [Remove(a, ',')] + Tokens(b)
  {
    assert b == "," + rest;
    AbsorbComma(a, rest);
    TokensSkip(',', rest);
  }

  /** A comma swallowed by the match leaves the same token behind. */
  lemma AbsorbComma(a: string, rest: string)
    requires AllInRun(a) && a != [] && IsDigit(a[0]) && MatchLen(a + ("," + rest)) == |a| + 1
    ensures Tokens(a + ("," + rest)) == [Remove(a, ',')] + Tokens(rest)
  {
    Assoc(a, ",", rest);
    TokensOfRun(a + ",", rest);
    RemoveLastComma(a);
  }

  lemma RemoveLastComma(a: string)
    ensures Remove(a + ",", ',') == Remove(a, ',')
  {
    RemoveConcat(a, ",", ',');
    assert Remove(",", ',') == Remove("", ',');
  }

  /** The other kind of seam: `a` ends in a character that cannot belong to a number. */
  lemma TokensAfterSeparator(a: string, b: string)
    requires a != [] && Separates(a[|a| - 1])
    ensures Tokens(a + b) == Tokens(a) + Tokens(b)
  {
    var h, c := a[..|a| - 1], a[|a| - 1];
    assert a == h + [c];
    Assoc(h, [c], b);
    TokensConcat(h, [c] + b);
    TokensConcat(h, [c]);
    TokensSkip(c, b);
    TokensSkip(c, []);
    assert [c] + [] == [c];
    TokensOfNothing();
    assert Tokens(h) + [] == Tokens(h);
  }

  lemma TokensOfNothing()
    ensures Tokens([]) == []
  {
  }

  /** A decimal numeral yields no token. */
  lemma TokensOfDecimal(whole: string, frac: string)
    requires AllInRun(whole) && whole != [] && IsDigit(whole[0]) && AllDigits(frac) && frac != []
    ensures Tokens(whole + ("." + frac)) == []
  {
    var s := whole + ("." + frac);
    RunLenFull(whole);
    RunLenConcat(whole, "." + frac);
    assert s[|whole|] == '.' && s[|whole| + 1..] == frac;
    assert frac[..|frac|] == frac;
    DigitLenAtLeast(frac, |frac|);
    assert MatchLen(s) == |s| && s[..|s|] == s && s[|s|..] == [];
    EmitExactly(s);
  }

  lemma TokensSkip(c: char, b: string)
    requires !IsDigit(c)
    ensures Tokens([c] + b) == Tokens(b)
  {
    assert ([c] + b)[1..] == b;
  }

  /** A printed rupee amount scans to exactly one token: the plain digits of its rupee value. */
  lemma TokensOfRupees(paise: int)
    ensures Tokens(Rupees(paise)) == [Str(RupeesOf(paise))]
  {
    var digits := Str(RupeesOf(paise));
    var grouped := Group(digits);
    var head := [RUPEE] + (if paise < 0 then "-" else "");
    RemoveGroup(digits);
    TokensOfRunAlone(grouped);
    TokensAfterSeparator(head, grouped);
    NoDigitsNoTokens(head);
  }

  /** A printed integer scans to the digits of its absolute value. */
  lemma TokensOfInt(i: int)
    ensures Tokens(StrInt(i)) == [Str(Abs(i))]
  {
    var digits := Str(Abs(i));
    RemoveAbsent(digits, ',');
    TokensOfRunAlone(digits);
    TokensSkip('-', digits);
  }
}
