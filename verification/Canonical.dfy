/** Canonical invoices (ingestion/canonical.py): the invoice-number normaliser and the dedup tuple behind
    `content_hash`. */
module Canonical {
  import opened Wrappers
  import opened Periods
  import opened Digits

  // ----- cleaning -----

  predicate IsSpace(c: char) { c == ' ' || 9 <= c as int <= 13 || 28 <= c as int <= 31 }

  predicate IsSeparator(c: char) { IsSpace(c) || c == '-' || c == '/' || c == '.' }

  function Upper(c: char): char { if 'a' <= c <= 'z' then (c as int - 32) as char else c }

  function ToUpper(s: string): (r: string)
    ensures |r| == |s|
  {
    seq(|s|, i requires 0 <= i < |s| => Upper(s[i]))
  }

  function Strip(s: string): string {
    if s != [] && IsSpace(s[0]) then Strip(s[1..])
    else if s != [] && IsSpace(s[|s| - 1]) then Strip(s[..|s| - 1])
    else s
  }

  predicate AllSpace(s: string) { forall i :: 0 <= i < |s| ==> IsSpace(s[i]) }

  lemma {:induction false} StripEnds(s: string)
    ensures Strip(s) != [] ==> !IsSpace(Strip(s)[0]) && !IsSpace(Strip(s)[|Strip(s)| - 1])
    decreases |s|
  {
    if s != [] && IsSpace(s[0]) {
      StripEnds(s[1..]);
    } else if s != [] && IsSpace(s[|s| - 1]) {
      StripEnds(s[..|s| - 1]);
    }
  }

  lemma {:induction false} StripParts(s: string) returns (before: string, after: string)
    ensures s == before + Strip(s) + after && AllSpace(before) && AllSpace(after)
    decreases |s|
  {
    before, after := [], [];
    if s != [] && IsSpace(s[0]) {
      before, after := StripParts(s[1..]);
      PadLeft(s[0], s[1..], before, Strip(s), after);
      before := [s[0]] + before;
    } else if s != [] && IsSpace(s[|s| - 1]) {
      before, after := StripParts(s[..|s| - 1]);
      PadRight(s[|s| - 1], s[..|s| - 1], before, Strip(s), after);
      after := after + [s[|s| - 1]];
    }
  }

  /** Stripping takes whitespace off both ends, all of it and nothing else. */
  lemma StripIs(s: string) returns (before: string, after: string)
    ensures s == before + Strip(s) + after && AllSpace(before) && AllSpace(after)
    ensures Strip(s) != [] ==> !IsSpace(Strip(s)[0]) && !IsSpace(Strip(s)[|Strip(s)| - 1])
  {
    before, after := StripParts(s);
    StripEnds(s);
  }

  function DropSeparators(s: string): string {
    if s == [] then [] else if IsSeparator(s[0]) then DropSeparators(s[1..]) else [s[0]] + DropSeparators(s[1..])
  }

  function Clean(raw: string): string { ToUpper(DropSeparators(Strip(raw))) }

  lemma {:induction false} DropConcat(a: string, b: string)
    ensures DropSeparators(a + b) == DropSeparators(a) + DropSeparators(b)
  {
    if a == [] {
      assert a + b == b;
    } else {
      DropConcat(a[1..], b);
      assert (a + b)[1..] == a[1..] + b;
      if !IsSeparator(a[0]) {
        Assoc([a[0]], DropSeparators(a[1..]), DropSeparators(b));
      }
    }
  }

  /** The initial `strip()` is subsumed by dropping separators. */
  lemma {:induction false} StripIsIdle(s: string)
    ensures DropSeparators(Strip(s)) == DropSeparators(s)
    decreases |s|
  {
    if s != [] && IsSpace(s[0]) {
      StripIsIdle(s[1..]);
    } else if s != [] && IsSpace(s[|s| - 1]) {
      StripIsIdle(s[..|s| - 1]);
      DropConcat(s[..|s| - 1], [s[|s| - 1]]);
      assert s == s[..|s| - 1] + [s[|s| - 1]];
      DropOne(s[|s| - 1]);
    }
  }

  lemma DropOne(c: char)
    requires IsSeparator(c)
    ensures DropSeparators([c]) == []
  {
    assert DropSeparators([c][1..]) == [];
  }

  lemma UpperConcat(a: string, b: string)
    ensures ToUpper(a + b) == ToUpper(a) + ToUpper(b)
  {
  }

  lemma CleanConcat(a: string, b: string)
    ensures Clean(a + b) == Clean(a) + Clean(b)
  {
    StripIsIdle(a + b);
    StripIsIdle(a);
    StripIsIdle(b);
    DropConcat(a, b);
    UpperConcat(DropSeparators(a), DropSeparators(b));
  }

  /** What cleaning makes of one character: whitespace, dash, slash and dot go; lower case turns upper; the rest
      stays. Cleaning being a homomorphism, this is all it does. */
  lemma CleanOfChar(c: char)
    ensures Clean([c]) ==
      if c == '-' || c == '/' || c == '.' || c == ' ' || 9 <= c as int <= 13 || 28 <= c as int <= 31 then []
      else if 'a' <= c <= 'z' then [(c as int - 'a' as int + 'A' as int) as char]
      else [c]
  {
    StripIsIdle([c]);
    assert [c][1..] == [];
    assert DropSeparators([c]) == if IsSeparator(c) then [] else [c];
  }

  /** No separator, no lower-case letter: cleaning leaves such a text alone. */
  predicate IsClean(s: string) { forall i :: 0 <= i < |s| ==> !IsSeparator(s[i]) && Upper(s[i]) == s[i] }

  lemma {:induction false} DropLeavesNone(s: string)
    ensures forall i :: 0 <= i < |DropSeparators(s)| ==> !IsSeparator(DropSeparators(s)[i])
  {
    if s != [] {
      DropLeavesNone(s[1..]);
    }
  }

  lemma {:induction false} DropNothing(s: string)
    requires forall i :: 0 <= i < |s| ==> !IsSeparator(s[i])
    ensures DropSeparators(s) == s
  {
    if s != [] {
      DropNothing(s[1..]);
    }
  }

  lemma CleanIsClean(raw: string)
    ensures IsClean(Clean(raw))
  {
    DropLeavesNone(Strip(raw));
  }

  lemma CleanOfClean(s: string)
    requires IsClean(s)
    ensures Clean(s) == s
  {
    StripIsIdle(s);
    DropNothing(s);
  }

  // ----- runs -----

  /** What an invoice number means: alternating runs of letters and numbers, zero-padding forgotten. */
  datatype Run = Letters(s: string) | Number(n: nat)

  /** Length of the longest prefix whose characters are all digits (or all not). */
  function SpanLen(s: string, digits: bool): (n: nat)
    ensures n <= |s|
  {
    if s == [] || IsDigit(s[0]) != digits then 0 else 1 + SpanLen(s[1..], digits)
  }

  lemma {:induction false} SpanIs(s: string, digits: bool)
    ensures forall i :: 0 <= i < SpanLen(s, digits) ==> IsDigit(s[i]) == digits
    ensures SpanLen(s, digits) < |s| ==> IsDigit(s[SpanLen(s, digits)]) != digits
  {
    if s != [] && IsDigit(s[0]) == digits {
      SpanIs(s[1..], digits);
    }
  }

  /** A span that fills `a` stops where `b` changes class. */
  lemma {:induction false} SpanConcat(a: string, b: string, digits: bool)
    requires forall i :: 0 <= i < |a| ==> IsDigit(a[i]) == digits
    requires b == [] || IsDigit(b[0]) != digits
    ensures SpanLen(a + b, digits) == |a|
  {
    if a == [] {
      assert a + b == b;
    } else {
      SpanConcat(a[1..], b, digits);
      assert (a + b)[1..] == a[1..] + b;
    }
  }

  function FirstRun(s: string): Run
    requires s != []
  {
    if IsDigit(s[0]) then
      SpanIs(s, true);
      Number(Val(s[..SpanLen(s, true)]))
    else Letters(s[..SpanLen(s, false)])
  }

  function FirstLen(s: string): (n: nat)
    requires s != []
    ensures 1 <= n <= |s|
  {
    SpanLen(s, IsDigit(s[0]))
  }

  function Runs(s: string): seq<Run> {
    if s == [] then [] else [FirstRun(s)] + Runs(s[FirstLen(s)..])
  }

  function PrintRun(r: Run): string { match r case Letters(s) => s case Number(n) => Str(n) }

  function Print(rs: seq<Run>): string {
    if rs == [] then "" else PrintRun(rs[0]) + Print(rs[1..])
  }

  predicate GoodRun(r: Run) {
    r.Letters? ==> r.s != [] && forall i :: 0 <= i < |r.s| ==> !IsDigit(r.s[i])
  }

  predicate Alternates(rs: seq<Run>) {
    (forall i :: 0 <= i < |rs| ==> GoodRun(rs[i])) &&
    forall i :: 0 < i < |rs| ==> rs[i - 1].Letters? != rs[i].Letters?
  }

  lemma {:induction false} RunsAlternate(s: string)
    ensures Alternates(Runs(s))
    ensures s != [] ==> Runs(s) != [] && Runs(s)[0].Number? == IsDigit(s[0])
  {
    if s != [] {
      SpanIs(s, IsDigit(s[0]));
      RunsAlternate(s[FirstLen(s)..]);
    }
  }

  lemma PrintHead(rs: seq<Run>)
    requires Alternates(rs) && rs != []
    ensures Print(rs) != [] && (IsDigit(Print(rs)[0]) <==> rs[0].Number?)
  {
  }

  /** A printed run is read back as far as the next class of character. */
  lemma FirstOfPrint(r: Run, rest: string)
    requires GoodRun(r) && (rest == [] || IsDigit(rest[0]) != r.Number?)
    ensures var s := PrintRun(r) + rest; FirstRun(s) == r && FirstLen(s) == |PrintRun(r)| && s[FirstLen(s)..] == rest
  {
    var head := PrintRun(r);
    SpanConcat(head, rest, r.Number?);
    assert (head + rest)[..|head|] == head;
    if r.Number? {
      ValStr(r.n);
    }
  }

  lemma RunsCons(r: Run, rest: string)
    requires GoodRun(r) && (rest == [] || IsDigit(rest[0]) != r.Number?)
    ensures Runs(PrintRun(r) + rest) == [r] + Runs(rest)
  {
    FirstOfPrint(r, rest);
  }

  /** Printing and re-reading alternating runs is the identity. */
  lemma {:induction false} RunsOfPrint(rs: seq<Run>)
    requires Alternates(rs)
    ensures Runs(Print(rs)) == rs
  {
    if rs != [] {
      var rest := rs[1..];
      RunsOfPrint(rest);
      if rest != [] {
        PrintHead(rest);
      }
      RunsCons(rs[0], Print(rest));
      assert rs == [rs[0]] + rest;
    }
  }

  // ----- the normaliser -----

  function Norm(raw: string): string {
    var p := Print(Runs(Clean(raw)));
    if p == "" then "0" else p
  }

  function Concat(parts: seq<string>): string {
    if parts == [] then "" else Concat(parts[..|parts| - 1]) + parts[|parts| - 1]
  }

  method NormalizeInvoiceNumber(raw: Option<string>) returns (r: string)
    ensures r == if raw.None? then "" else Norm(raw.value)
  {
    if raw.None? {
      return "";
    }
    var s := Clean(raw.value);
    var out: seq<string> := [];
    var i := 0;
    while i < |s|
      invariant i <= |s|
      invariant Concat(out) + Print(Runs(s[i..])) == Print(Runs(s))
    {
      var j := EndOfRun(s, i);
      var run := if IsDigit(s[i]) then StripZeros(s[i..j]) else s[i..j];
      RunAtIs(s, i, j);
      PushRun(out, s[i..], run);
      out := out + [run];
      i := j;
    }
    assert s[|s|..] == [];
    var joined := Concat(out);
    r := if joined == "" then "0" else joined;
  }

  /** The inner loops: from `i` to the first character of the other class. */
  method EndOfRun(s: string, i: nat) returns (j: nat)
    requires i < |s|
    ensures i < j <= |s| && j == i + FirstLen(s[i..])
    ensures forall k :: i <= k < j ==> IsDigit(s[k]) == IsDigit(s[i])
  {
    var digits := IsDigit(s[i]);
    j := i;
    while j < |s| && IsDigit(s[j]) == digits
      invariant i <= j <= |s|
      invariant forall k :: i <= k < j ==> IsDigit(s[k]) == digits
      invariant SpanLen(s[i..], digits) == j - i + SpanLen(s[j..], digits)
    {
      assert s[j..][1..] == s[j + 1..];
      j := j + 1;
    }
  }

  /** The piece between `i` and `j` prints the first run of the rest. */
  lemma RunAtIs(s: string, i: nat, j: nat)
    requires i < j <= |s| && j == i + FirstLen(s[i..])
    requires forall k :: i <= k < j ==> IsDigit(s[k]) == IsDigit(s[i])
    ensures PrintRun(FirstRun(s[i..])) == if IsDigit(s[i]) then StripZeros(s[i..j]) else s[i..j]
    ensures s[i..][FirstLen(s[i..])..] == s[j..]
  {
    assert s[i..][..j - i] == s[i..j];
    if IsDigit(s[i]) {
      StripZerosIsStrVal(s[i..j]);
    }
  }

  lemma PushRun(out: seq<string>, rest: string, run: string)
    requires rest != [] && run == PrintRun(FirstRun(rest))
    ensures Concat(out + [run]) + Print(Runs(rest[FirstLen(rest)..])) == Concat(out) + Print(Runs(rest))
  {
    assert (out + [run])[..|out|] == out;
    var tail := Runs(rest[FirstLen(rest)..]);
    assert Runs(rest) == [FirstRun(rest)] + tail;
    assert ([FirstRun(rest)] + tail)[1..] == tail;
    Assoc(Concat(out), run, Print(tail));
  }

  /** The runs a raw invoice number stands for; an empty one stands for zero. */
  function RunsOf(raw: string): seq<Run> {
    if Clean(raw) == "" then [Number(0)] else Runs(Clean(raw))
  }

  lemma NormPrintsRuns(raw: string)
    ensures Norm(raw) == Print(RunsOf(raw))
    ensures Runs(Norm(raw)) == RunsOf(raw) && Alternates(RunsOf(raw))
  {
    RunsAlternate(Clean(raw));
    if Clean(raw) == "" {
      assert [Number(0)][1..] == [];
      assert Print([Number(0)]) == Str(0) + "" == "0";
    } else {
      PrintHead(Runs(Clean(raw)));
    }
    RunsOfPrint(RunsOf(raw));
  }

  /** Two raw numbers normalise alike exactly when they have the same runs: for all inputs. */
  lemma SameInvoiceExactly(a: string, b: string)
    ensures Norm(a) == Norm(b) <==> RunsOf(a) == RunsOf(b)
  {
    NormPrintsRuns(a);
    NormPrintsRuns(b);
  }

  predicate CleanRun(r: Run) { r.Letters? ==> IsClean(r.s) }

  lemma {:induction false} RunsClean(s: string)
    requires IsClean(s)
    ensures forall i :: 0 <= i < |Runs(s)| ==> CleanRun(Runs(s)[i])
  {
    if s != [] {
      RunsClean(s[FirstLen(s)..]);
    }
  }

  lemma {:induction false} PrintClean(rs: seq<Run>)
    requires forall i :: 0 <= i < |rs| ==> CleanRun(rs[i])
    ensures IsClean(Print(rs))
  {
    if rs != [] {
      PrintClean(rs[1..]);
      assert IsClean(PrintRun(rs[0]));
    }
  }

  lemma NormIsClean(raw: string)
    ensures IsClean(Norm(raw))
  {
    NormPrintsRuns(raw);
    CleanIsClean(raw);
    RunsClean(Clean(raw));
    PrintClean(RunsOf(raw));
  }

  lemma NormIdempotent(raw: string)
    ensures Norm(Norm(raw)) == Norm(raw)
  {
    NormPrintsRuns(raw);
    NormIsClean(raw);
    CleanOfClean(Norm(raw));
    PrintHead(RunsOf(raw));
  }

  /** Whitespace, dashes, slashes and dots anywhere do not matter. */
  lemma NormIgnoresSeparator(a: string, c: char, b: string)
    requires c == '-' || c == '/' || c == '.' || c == ' ' || 9 <= c as int <= 13 || 28 <= c as int <= 31
    ensures Norm(a + [c] + b) == Norm(a + b)
  {
    CleanConcat(a + [c], b);
    CleanConcat(a, [c]);
    CleanConcat(a, b);
    StripIsIdle([c]);
    DropOne(c);
    assert Clean([c]) == [];
    assert Clean(a) + [] == Clean(a);
  }

  lemma {:induction false} DropUpper(s: string)
    ensures DropSeparators(ToUpper(s)) == ToUpper(DropSeparators(s))
  {
    if s != [] {
      DropUpper(s[1..]);
      assert ToUpper(s)[1..] == ToUpper(s[1..]);
      assert ToUpper([s[0]] + DropSeparators(s[1..])) == [Upper(s[0])] + ToUpper(DropSeparators(s[1..]));
    }
  }

  /** Letter case does not matter. */
  lemma NormIgnoresCase(a: string, b: string)
    requires ToUpper(a) == ToUpper(b)
    ensures Norm(a) == Norm(b)
  {
    StripIsIdle(a);
    StripIsIdle(b);
    DropUpper(a);
    DropUpper(b);
  }

  /** A boundary where a digit run begins splits the runs. */
  lemma {:induction false} RunsSplit(x: string, y: string)
    requires x == [] || !IsDigit(x[|x| - 1])
    requires y != [] && IsDigit(y[0])
    ensures Runs(x + y) == Runs(x) + Runs(y)
    decreases |x|
  {
    if x == [] {
      assert x + y == y;
    } else {
      var n := FirstLen(x);
      var d := IsDigit(x[0]);
      SpanIs(x, d);
      assert x + y == x[..n] + (x[n..] + y);
      SpanConcat(x[..n], x[n..] + y, d);
      assert FirstLen(x + y) == n && (x + y)[..n] == x[..n] && (x + y)[n..] == x[n..] + y;
      RunsSplit(x[n..], y);
      Assoc([FirstRun(x)], Runs(x[n..]), Runs(y));
    }
  }

  lemma FirstPadded(y: string)
    requires y != [] && IsDigit(y[0])
    ensures var s := "0" + y; FirstRun(s) == FirstRun(y) && s[FirstLen(s)..] == y[FirstLen(y)..]
  {
    var n := SpanLen(y, true);
    SpanIs(y, true);
    assert ("0" + y)[1..] == y;
    assert ("0" + y)[..n + 1] == "0" + y[..n] && ("0" + y)[n + 1..] == y[n..];
    ValLeadingZero(y[..n]);
    SpanIs("0" + y, true);
  }

  lemma RunsPadded(y: string)
    requires y != [] && IsDigit(y[0])
    ensures Runs("0" + y) == Runs(y)
  {
    FirstPadded(y);
  }

  /** Zero-padding the start of any digit run does not matter. */
  lemma NormIgnoresPadding(a: string, b: string)
    requires Clean(a) == [] || !IsDigit(Clean(a)[|Clean(a)| - 1])
    requires Clean(b) != [] && IsDigit(Clean(b)[0])
    ensures Norm(a + "0" + b) == Norm(a + b)
  {
    CleanConcat(a + "0", b);
    CleanConcat(a, "0");
    CleanConcat(a, b);
    assert IsClean("0");
    CleanOfClean("0");
    Assoc(Clean(a), "0", Clean(b));
    RunsSplit(Clean(a), "0" + Clean(b));
    RunsSplit(Clean(a), Clean(b));
    RunsPadded(Clean(b));
  }

  // ----- the dedup tuple -----

  function IsoDate(t: Date): (s: string)
    requires Representable(t)
    ensures |s| == 10
  {
    Pad2(t.y / 100) + Pad2(t.y % 100) + "-" + Pad2(t.m) + "-" + Pad2(t.d)
  }

  lemma IsoSlices(c: string, y: string, m: string, d: string)
    requires |c| == |y| == |m| == |d| == 2
    ensures var s := c + y + "-" + m + "-" + d;
      |s| == 10 && s[..2] == c && s[2..4] == y && s[5..7] == m && s[8..10] == d
  {
  }

  lemma IsoDateInjective(a: Date, b: Date)
    requires Representable(a) && Representable(b) && IsoDate(a) == IsoDate(b)
    ensures a == b
  {
    IsoSlices(Pad2(a.y / 100), Pad2(a.y % 100), Pad2(a.m), Pad2(a.d));
    IsoSlices(Pad2(b.y / 100), Pad2(b.y % 100), Pad2(b.m), Pad2(b.d));
  }

  datatype Invoice = Invoice(profile: string, counterparty: string, number: string, date: Date, total: int)

  predicate Hashable(v: Invoice) { Representable(v.date) }

  /** The text whose SHA-256 is the content hash; a missing counterparty is the empty string. */
  function HashInput(v: Invoice): string
    requires Hashable(v)
  {
    v.profile + ("|" + (ToUpper(v.counterparty) + ("|" + (Norm(v.number) + Stamp(v)))))
  }

  function Stamp(v: Invoice): string
    requires Hashable(v)
  {
    "|" + (IsoDate(v.date) + ("|" + StrInt(v.total)))
  }

  /** The two fields in which a bar can occur, as the hash sees them. */
  function Party(v: Invoice): string { ToUpper(v.counterparty) + ("|" + Norm(v.number)) }

  /** The five normalised fields. */
  predicate SameInvoice(a: Invoice, b: Invoice) {
    a.profile == b.profile && ToUpper(a.counterparty) == ToUpper(b.counterparty) &&
    RunsOf(a.number) == RunsOf(b.number) && a.date == b.date && a.total == b.total
  }

  predicate NoBar(s: string) { forall i :: 0 <= i < |s| ==> s[i] != '|' }

  /** A bar-free field is delimited by the first bar. */
  lemma SplitFirst(a: string, x: string, b: string, y: string)
    requires NoBar(a) && NoBar(b) && a + ("|" + x) == b + ("|" + y)
    ensures a == b && x == y
  {
    var s := a + ("|" + x);
    assert s[|a|] == '|' && s[|b|] == '|';
    assert |a| == |b|;
    assert a == s[..|a|] == b;
    assert x == s[|a| + 1..] == y;
  }

  /** A bar-free field is delimited by the last bar. */
  lemma SplitLast(x: string, a: string, y: string, b: string)
    requires NoBar(a) && NoBar(b) && x + ("|" + a) == y + ("|" + b)
    ensures a == b && x == y
  {
    var s := x + ("|" + a);
    var t := y + ("|" + b);
    assert s[|x|] == '|' && t[|y|] == '|';
    assert forall i :: |x| < i < |s| ==> s[i] == a[i - |x| - 1];
    assert forall i :: |y| < i < |t| ==> t[i] == b[i - |y| - 1];
    assert |x| == |y|;
    assert x == s[..|x|] == y;
    assert a == s[|x| + 1..] == b;
  }

  lemma TailSplit(n: string, a: Invoice, m: string, b: Invoice)
    requires Hashable(a) && Hashable(b)
    requires n + Stamp(a) == m + Stamp(b)
    ensures n == m && a.date == b.date && a.total == b.total
  {
    var da, db := IsoDate(a.date), IsoDate(b.date);
    var ta, tb := StrInt(a.total), StrInt(b.total);
    Regroup(n, da, ta);
    Regroup(m, db, tb);
    SplitLast(n + ("|" + da), ta, m + ("|" + db), tb);
    SplitLast(n, da, m, db);
    IsoDateInjective(a.date, b.date);
    StrIntInjective(a.total, b.total);
  }

  lemma Regroup(x: string, y: string, z: string)
    ensures x + ("|" + (y + ("|" + z))) == (x + ("|" + y)) + ("|" + z)
  {
    Assoc(x, "|" + y, "|" + z);
    Assoc("|", y, "|" + z);
  }

  lemma StrIntInjective(a: int, b: int)
    requires StrInt(a) == StrInt(b)
    ensures a == b
  {
    assert StrInt(a)[0] == '-' <==> a < 0;
    assert StrInt(b)[0] == '-' <==> b < 0;
    if a < 0 {
      assert StrInt(a)[1..] == Str(-a) && StrInt(b)[1..] == Str(-b);
    }
    StrInjective(Abs(a), Abs(b));
  }

  lemma HashInputGroups(v: Invoice)
    requires Hashable(v)
    ensures HashInput(v) == v.profile + ("|" + (Party(v) + Stamp(v)))
  {
    Assoc("|", Norm(v.number), Stamp(v));
    Assoc(ToUpper(v.counterparty), "|" + Norm(v.number), Stamp(v));
  }

  /** Profile ids hold no bar; then two invoices share a content hash exactly when profile, date and total
      agree and so do counterparty and number joined by a bar. */
  lemma HashPairExactly(a: Invoice, b: Invoice)
    requires Hashable(a) && Hashable(b) && NoBar(a.profile) && NoBar(b.profile)
    ensures HashInput(a) == HashInput(b) <==>
      a.profile == b.profile && a.date == b.date && a.total == b.total && Party(a) == Party(b)
  {
    HashInputGroups(a);
    HashInputGroups(b);
    if HashInput(a) == HashInput(b) {
      SplitFirst(a.profile, Party(a) + Stamp(a), b.profile, Party(b) + Stamp(b));
      TailSplit(Party(a), a, Party(b), b);
    }
  }

  /** GSTINs hold no bar either; then the hash is shared exactly when the five normalised fields agree,
      whatever the invoice numbers contain. */
  lemma HashInputExactly(a: Invoice, b: Invoice)
    requires Hashable(a) && Hashable(b)
    requires NoBar(a.profile) && NoBar(b.profile) && NoBar(a.counterparty) && NoBar(b.counterparty)
    ensures HashInput(a) == HashInput(b) <==> SameInvoice(a, b)
  {
    SameInvoiceExactly(a.number, b.number);
    HashPairExactly(a, b);
    if Party(a) == Party(b) {
      SplitFirst(ToUpper(a.counterparty), Norm(a.number), ToUpper(b.counterparty), Norm(b.number));
    }
  }

  ghost predicate Collide(a: Invoice, b: Invoice)
    requires Hashable(a) && Hashable(b)
  {
    HashInput(a) == HashInput(b) && !SameInvoice(a, b)
  }

  /** Counterparty and number can be cut at another bar, with a normal form to its right. */
  ghost predicate Recuts(v: Invoice) {
    exists u, n :: u + ("|" + n) == Party(v) && Norm(n) == n && u != ToUpper(v.counterparty)
  }

  /** An invoice shares its hash with some different invoice exactly when its fields can be cut anew. */
  lemma CollidesExactly(a: Invoice)
    requires Hashable(a) && NoBar(a.profile)
    ensures (exists b :: Hashable(b) && NoBar(b.profile) && Collide(a, b)) <==> Recuts(a)
  {
    if b :| Hashable(b) && NoBar(b.profile) && Collide(a, b) {
      HashPairExactly(a, b);
      NormIdempotent(b.number);
      SameInvoiceExactly(a.number, b.number);
      var u, n := ToUpper(b.counterparty), Norm(b.number);
      assert u + ("|" + n) == Party(a);
      if u == ToUpper(a.counterparty) {
        SameTail(u, Norm(a.number), n);
      }
    }
    if u, n :| u + ("|" + n) == Party(a) && Norm(n) == n && u != ToUpper(a.counterparty) {
      var b := Invoice(a.profile, u, n, a.date, a.total);
      PartyUpper(a, u, n);
      HashPairExactly(a, b);
      assert Collide(a, b);
    }
  }

  lemma SameTail(u: string, x: string, y: string)
    requires u + ("|" + x) == u + ("|" + y)
    ensures x == y
  {
    assert x == (u + ("|" + x))[|u| + 1..];
    assert y == (u + ("|" + y))[|u| + 1..];
  }

  /** Whatever is cut off the joined fields is already upper case. */
  lemma PartyUpper(a: Invoice, u: string, n: string)
    requires u + ("|" + n) == Party(a)
    ensures ToUpper(u) == u
  {
    NormIsClean(a.number);
    assert forall i :: 0 <= i < |Party(a)| ==> Upper(Party(a)[i]) == Party(a)[i];
    assert forall i :: 0 <= i < |u| ==> u[i] == Party(a)[i];
  }

  lemma NormOfPrinted(rs: seq<Run>)
    requires rs != [] && Alternates(rs) && IsClean(Print(rs))
    ensures Norm(Print(rs)) == Print(rs) && RunsOf(Print(rs)) == rs
  {
    CleanOfClean(Print(rs));
    RunsOfPrint(rs);
    PrintHead(rs);
  }

  /** Without the bar-free counterparties two different invoices can share a hash: counterparty `A|1` with
      number 2, and counterparty `A` with number `1|2`. */
  lemma BarsCollide(t: Date) returns (a: Invoice, b: Invoice)
    requires Representable(t)
    ensures Hashable(a) && Hashable(b) && Collide(a, b)
  {
    var two, mixed := [Number(2)], [Number(1), Letters("|"), Number(2)];
    PrintTwo(two);
    PrintMixed(mixed);
    NormOfPrinted(two);
    NormOfPrinted(mixed);
    a := Invoice("p", "A|1", Print(two), t, 0);
    b := Invoice("p", "A", Print(mixed), t, 0);
    assert ToUpper(a.counterparty) == "A|1" && ToUpper(b.counterparty) == "A";
    BarHides(a, b);
  }

  lemma BarHides(a: Invoice, b: Invoice)
    requires Hashable(a) && Hashable(b) && a.profile == b.profile && a.date == b.date && a.total == b.total
    requires ToUpper(a.counterparty) == "A|1" && ToUpper(b.counterparty) == "A"
    requires Norm(a.number) == "2" && Norm(b.number) == "1|2"
    ensures Collide(a, b)
  {
    assert "A|1" + ("|" + "2") == "A" + ("|" + "1|2");
    HashInputGroups(a);
    HashInputGroups(b);
    assert |ToUpper(a.counterparty)| != |ToUpper(b.counterparty)|;
  }

  lemma PrintTwo(rs: seq<Run>)
    requires rs == [Number(2)]
    ensures Print(rs) == "2" && Alternates(rs)
  {
    assert rs[1..] == [];
  }

  lemma PrintMixed(rs: seq<Run>)
    requires rs == [Number(1), Letters("|"), Number(2)]
    ensures Print(rs) == "1|2" && Alternates(rs)
  {
    PrintTwo(rs[1..][1..]);
    assert Print(rs[1..]) == "|2";
  }
}
