/** Indian digit grouping: one recursive specification, the three loop shapes the repository uses
    for it, and the money formatters built on them. */
module IndianGrouping {
  import opened Wrappers
  import opened Digits

  const RUPEE: char := '\U{20B9}'

  // ----- the specification -----

  /** Everything before the last three digits, cut into pairs from the right. */
  function Pairs(h: string): string {
    if |h| <= 2 then h else Pairs(h[..|h| - 2]) + "," + h[|h| - 2..]
  }

  function Group(s: string): string {
    if |s| <= 3 then s else Pairs(s[..|s| - 3]) + "," + s[|s| - 3..]
  }

  predicate DigitsAndCommas(s: string) {
    forall i :: 0 <= i < |s| ==> IsDigit(s[i]) || s[i] == ','
  }

  lemma RemoveThroughComma(a: string, b: string)
    requires AllDigits(b)
    ensures Remove(a + "," + b, ',') == Remove(a, ',') + b
  {
    RemoveConcat(a + ",", b, ',');
    RemoveConcat(a, ",", ',');
    assert Remove(",", ',') == Remove("", ',') == "";
    RemoveAbsent(b, ',');
  }

  lemma {:induction false} RemovePairs(h: string)
    requires IsNumeral(h)
    ensures Remove(Pairs(h), ',') == h
    ensures DigitsAndCommas(Pairs(h)) && |Pairs(h)| > 0 && Pairs(h)[0] == h[0]
  {
    if |h| <= 2 {
      RemoveAbsent(h, ',');
    } else {
      var a, b := h[..|h| - 2], h[|h| - 2..];
      RemovePairs(a);
      RemoveThroughComma(Pairs(a), b);
      assert h == a + b;
    }
  }

  /** Deleting the commas gives the digits back, so grouping loses nothing. */
  lemma RemoveGroup(s: string)
    requires IsNumeral(s)
    ensures Remove(Group(s), ',') == s
    ensures DigitsAndCommas(Group(s)) && |Group(s)| > 0 && Group(s)[0] == s[0]
  {
    if |s| <= 3 {
      RemoveAbsent(s, ',');
    } else {
      var a, b := s[..|s| - 3], s[|s| - 3..];
      RemovePairs(a);
      RemoveThroughComma(Pairs(a), b);
      assert s == a + b;
    }
  }

  /** Where the commas fall: counted from the right, exactly at positions 3, 6, 9, ... */
  predicate CommaAt(fromRight: nat) { fromRight >= 3 && fromRight % 3 == 0 }

  lemma {:induction false} PairsShape(h: string, i: nat)
    requires IsNumeral(h) && i < |Pairs(h)|
    ensures Pairs(h)[|Pairs(h)| - 1 - i] == ',' <==> i % 3 == 2
  {
    if |h| > 2 && i >= 3 {
      PairsShape(h[..|h| - 2], i - 3);
    }
  }

  lemma GroupShape(s: string, i: nat)
    requires IsNumeral(s) && i < |Group(s)|
    ensures Group(s)[|Group(s)| - 1 - i] == ',' <==> CommaAt(i)
  {
    if |s| > 3 && i >= 4 {
      PairsShape(s[..|s| - 3], i - 4);
    }
  }

  // ----- joining -----

  function Join(sep: string, parts: seq<string>): string {
    if parts == [] then "" else if |parts| == 1 then parts[0] else parts[0] + sep + Join(sep, parts[1..])
  }

  function Reverse(parts: seq<string>): (r: seq<string>)
    ensures |r| == |parts|
  {
    if parts == [] then [] else [parts[|parts| - 1]] + Reverse(parts[..|parts| - 1])
  }

  /** "," before each part, in order. */
  function Commaed(parts: seq<string>): string {
    if parts == [] then "" else "," + parts[0] + Commaed(parts[1..])
  }

  lemma {:induction false} JoinIsCommaed(x: string, parts: seq<string>)
    ensures Join(",", [x] + parts) == x + Commaed(parts)
    decreases |parts|
  {
    if parts == [] {
    } else {
      JoinIsCommaed(parts[0], parts[1..]);
      assert [parts[0]] + parts[1..] == parts == ([x] + parts)[1..];
      assert x + ("," + (parts[0] + Commaed(parts[1..]))) == x + ("," + parts[0] + Commaed(parts[1..]));
    }
  }

  // ----- the loops -----

  /** validator.py `_indian_grouped`: prepends to a string accumulator. */
  method IndianGrouped(numStr: string) returns (r: string)
    ensures |LStripDash(numStr)| <= 3 ==> r == numStr
    ensures |LStripDash(numStr)| > 3 ==> r == (if numStr[0] == '-' then "-" else "") + Group(LStripDash(numStr))
  {
    var n := LStripDash(numStr);
    if |n| <= 3 {
      return numStr;
    }
    var last3 := n[|n| - 3..];
    var rest := n[..|n| - 3];
    var groupedRest := "";
    while |rest| > 2
      invariant Pairs(n[..|n| - 3]) == Pairs(rest) + groupedRest
    {
      var shorter := rest[..|rest| - 2];
      groupedRest := "," + rest[|rest| - 2..] + groupedRest;
      rest := shorter;
    }
    groupedRest := rest + groupedRest;
    var sign := if numStr != [] && numStr[0] == '-' then "-" else "";
    r := sign + groupedRest + "," + last3;
    assert sign + groupedRest + "," + last3 == sign + (groupedRest + "," + last3);
  }

  /** mock_adapter.py, pdf/renderer.py and chase_template.py: appends parts, then joins them reversed. */
  method GroupByReversedParts(s: string) returns (r: string)
    ensures r == Group(s)
  {
    if |s| <= 3 {
      return s;
    }
    var last3 := s[|s| - 3..];
    var rest := s[..|s| - 3];
    var parts: seq<string> := [];
    while |rest| > 2
      invariant Pairs(s[..|s| - 3]) == Pairs(rest) + Commaed(Reverse(parts))
    {
      var part := rest[|rest| - 2..];
      assert Reverse(parts + [part]) == [part] + Reverse(parts);
      assert Commaed([part] + Reverse(parts)) == "," + part + Commaed(Reverse(parts));
      parts := parts + [part];
      rest := rest[..|rest| - 2];
    }
    assert Reverse(parts + [rest]) == [rest] + Reverse(parts);
    JoinIsCommaed(rest, Reverse(parts));
    parts := parts + [rest];
    r := Join(",", Reverse(parts)) + "," + last3;
  }

  /** format.ts `indianGroup`: unshifts groups onto the front. */
  method GroupByUnshift(s: string) returns (r: string)
    ensures r == Group(s)
  {
    if |s| <= 3 {
      return s;
    }
    var tail := s[|s| - 3..];
    var head := s[..|s| - 3];
    var groups: seq<string> := [];
    while |head| > 2
      invariant |head| > 0
      invariant Pairs(s[..|s| - 3]) == Pairs(head) + Commaed(groups)
    {
      var group := head[|head| - 2..];
      assert Commaed([group] + groups) == "," + group + Commaed(groups);
      groups := [group] + groups;
      head := head[..|head| - 2];
    }
    if |head| > 0 {
      JoinIsCommaed(head, groups);
      groups := [head] + groups;
    }
    r := Join(",", groups) + "," + tail;
  }

  // ----- whole-rupee money, as the narrator prints it -----

  /** Whole rupees of an amount, half a rupee rounding away from zero. */
  function RupeesOf(paise: int): nat { (Abs(paise) + 50) / 100 }

  /** Nearest whole rupee, and upward on the tie. */
  lemma RupeesOfIsNearest(paise: int)
    ensures -50 < 100 * RupeesOf(paise) - Abs(paise) <= 50
  {
  }

  function Rupees(paise: int): string {
    [RUPEE] + (if paise < 0 then "-" else "") + Group(Str(RupeesOf(paise)))
  }

  method FormatRupees(paise: int) returns (r: string)
    ensures r == Rupees(paise)
  {
    if paise == 0 {
      return [RUPEE] + "0";
    }
    var grouped := GroupByReversedParts(Str(RupeesOf(paise)));
    r := [RUPEE] + (if paise < 0 then "-" else "") + grouped;
  }

  /** Reads a printed amount back: the rupee sign, an optional minus, grouped whole rupees. */
  function ReadRupees(s: string): Result<int> {
    if s == [] || s[0] != RUPEE then Err
    else
      var negative := |s| > 1 && s[1] == '-';
      var digits := Remove(s[if negative then 2 else 1..], ',');
      if !IsNumeral(digits) then Err else Ok(if negative then -(Val(digits) as int) else Val(digits))
  }

  /** A printed amount reads back as its nearest whole rupees, sign included. */
  lemma ReadRupeesText(paise: int)
    ensures ReadRupees(Rupees(paise)) == Ok(if paise < 0 then -(RupeesOf(paise) as int) else RupeesOf(paise))
  {
    var digits := Str(RupeesOf(paise));
    RemoveGroup(digits);
    ValStr(RupeesOf(paise));
    var s := Rupees(paise);
    assert s[if paise < 0 then 2 else 1..] == Group(digits);
  }

  // ----- format.ts -----

  /** What `formatPaise` accepts. */
  datatype Amount = Number(r: real) | BigInt(i: int) | Text(s: string)

  /** The ASCII characters that JavaScript's `trim` removes. */
  predicate IsSpace(c: char) { c == ' ' || 9 <= c as int <= 13 }

  function Trim(s: string): string {
    if s != [] && IsSpace(s[0]) then Trim(s[1..])
    else if s != [] && IsSpace(s[|s| - 1]) then Trim(s[..|s| - 1])
    else s
  }

  function ToBigIntPaise(v: Amount): Result<int> {
    match v
    case BigInt(i) => Ok(i)
    case Number(r) => if r == r.Floor as real then Ok(r.Floor) else Err
    case Text(t) =>
      var s := Trim(t);
      if IsNumeral(s) then Ok(Val(s))
      else if s != [] && s[0] == '-' && IsNumeral(s[1..]) then Ok(-(Val(s[1..]) as int))
      else Err
  }

  predicate Blank(s: string) { forall i :: 0 <= i < |s| ==> s[i] == ' ' || 9 <= s[i] as int <= 13 }

  lemma {:induction false} TrimPadded(before: string, s: string, after: string)
    requires Blank(before) && Blank(after) && s != [] && !IsSpace(s[0]) && !IsSpace(s[|s| - 1])
    ensures Trim(before + s + after) == s
    decreases |before| + |after|
  {
    var t := before + s + after;
    if before != [] {
      TrimPadded(before[1..], s, after);
      assert t[1..] == before[1..] + s + after;
    } else if after != [] {
      TrimPadded(before, s, after[..|after| - 1]);
      assert t[..|t| - 1] == before + s + after[..|after| - 1];
    } else {
      assert t == s;
    }
  }

  /** Integers are accepted at their own value, fractions refused. */
  lemma NumberReads(i: int, r: real)
    ensures ToBigIntPaise(BigInt(i)) == Ok(i) && ToBigIntPaise(Number(i as real)) == Ok(i)
    ensures ToBigIntPaise(Number(r)).Err? <==> r != r.Floor as real
  {
    assert (i as real).Floor == i;
  }

  /** A text of digits with an optional minus, padded with blanks, is accepted at its value. */
  lemma TextReads(before: string, negative: bool, digits: string, after: string)
    requires Blank(before) && Blank(after) && IsNumeral(digits)
    ensures ToBigIntPaise(Text(before + ((if negative then "-" else "") + digits) + after))
      == Ok(if negative then -(Val(digits) as int) else Val(digits))
  {
    var s := (if negative then "-" else "") + digits;
    assert s[|s| - 1] == digits[|digits| - 1];
    assert negative ==> s[1..] == digits;
    assert !negative ==> s == digits;
    TrimPadded(before, s, after);
  }

  lemma {:induction false} TrimIs(t: string) returns (before: string, after: string)
    ensures Blank(before) && Blank(after) && t == before + Trim(t) + after
    decreases |t|
  {
    before, after := [], [];
    if t != [] && IsSpace(t[0]) {
      before, after := TrimIs(t[1..]);
      PadLeft(t[0], t[1..], before, Trim(t), after);
      before := [t[0]] + before;
    } else if t != [] && IsSpace(t[|t| - 1]) {
      before, after := TrimIs(t[..|t| - 1]);
      PadRight(t[|t| - 1], t[..|t| - 1], before, Trim(t), after);
      after := after + [t[|t| - 1]];
    }
  }

  /** And no other text is. */
  lemma OnlyThatTextReads(t: string) returns (before: string, negative: bool, digits: string, after: string)
    requires ToBigIntPaise(Text(t)).Ok?
    ensures Blank(before) && Blank(after) && IsNumeral(digits)
    ensures t == before + ((if negative then "-" else "") + digits) + after
  {
    before, after := TrimIs(t);
    negative := !IsNumeral(Trim(t));
    digits := if negative then Trim(t)[1..] else Trim(t);
    assert (if negative then "-" else "") + digits == Trim(t);
  }

  function PaiseText(p: int): string {
    (if p < 0 then "-" else "") + [RUPEE] + Group(Str(Abs(p) / 100)) + "." + Pad2(Abs(p) % 100)
  }

  method FormatPaise(v: Amount) returns (r: Result<string>)
    ensures r == match ToBigIntPaise(v) case Ok(p) => Ok(PaiseText(p)) case Err => Err
  {
    var big := ToBigIntPaise(v);
    if big.Err? {
      return Err;
    }
    var negative := big.value < 0;
    var abs := if negative then -big.value else big.value;
    var grouped := GroupByUnshift(Str(abs / 100));
    r := Ok((if negative then "-" else "") + [RUPEE] + grouped + "." + Pad2(abs % 100));
  }

  /** Reads an unsigned displayed amount back: drop the rupee sign, two decimals, delete the commas. */
  function ReadUnsigned(t: string): Result<int> {
    if |t| < 5 || t[0] != RUPEE || t[|t| - 3] != '.' then Err
    else
      var whole := Remove(t[1..|t| - 3], ',');
      var frac := t[|t| - 2..];
      if !IsNumeral(whole) || !AllDigits(frac) then Err else Ok(100 * Val(whole) + Val(frac))
  }

  /** The same with a leading minus. */
  function ReadPaise(s: string): Result<int> {
    if s != [] && s[0] == '-' then
      match ReadUnsigned(s[1..]) case Ok(n) => Ok(-n) case Err => Err
    else
      match ReadUnsigned(s) case Ok(n) => Ok(n) case Err => Err
  }

  function UnsignedText(n: nat): string { [RUPEE] + Group(Str(n / 100)) + "." + Pad2(n % 100) }

  lemma Pieces(c: char, whole: string, frac: string)
    requires |frac| == 2
    ensures var t := [c] + whole + "." + frac;
      |t| == |whole| + 4 && t[0] == c && t[|t| - 3] == '.' && t[1..|t| - 3] == whole && t[|t| - 2..] == frac
  {
  }

  lemma ReadUnsignedText(n: nat)
    ensures ReadUnsigned(UnsignedText(n)) == Ok(n)
  {
    Pieces(RUPEE, Group(Str(n / 100)), Pad2(n % 100));
    RemoveGroup(Str(n / 100));
    ValStr(n / 100);
  }

  /** `formatPaise` has an explicit inverse at every magnitude. */
  lemma ReadPaiseText(p: int)
    ensures ReadPaise(PaiseText(p)) == Ok(p)
  {
    ReadUnsignedText(Abs(p));
    SignedText(p);
  }

  lemma SignedText(p: int)
    ensures PaiseText(p) == (if p < 0 then "-" + UnsignedText(Abs(p)) else UnsignedText(p))
    ensures UnsignedText(Abs(p))[0] == RUPEE && ("-" + UnsignedText(Abs(p)))[1..] == UnsignedText(Abs(p))
  {
    var g, d := Group(Str(Abs(p) / 100)), Pad2(Abs(p) % 100);
    if p < 0 {
      Assoc("-", [RUPEE], g);
      Assoc("-", [RUPEE] + g, ".");
      Assoc("-", [RUPEE] + g + ".", d);
    } else {
      assert "" + [RUPEE] == [RUPEE];
    }
  }

  /** Two amounts display alike exactly when they are the same number of paise. */
  lemma FormatPaiseInjective(p: int, q: int)
    ensures PaiseText(p) == PaiseText(q) <==> p == q
  {
    ReadPaiseText(p);
    ReadPaiseText(q);
  }
}
