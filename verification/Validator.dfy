/** The number-honesty guard: which numbers a narration may contain, and the check itself. */
module Validator {
  import opened Periods
  import opened Digits
  import opened IndianGrouping
  import opened NumberScanner

  datatype Owner = Ca | Client
  datatype Blocker = Blocker(kind: string, owner: Owner, description: string, paiseImpact: int)

  /** The frozen sheet of numbers a narrator is given. Money is paise. */
  datatype Facts = Facts(
    period: string, returnType: ReturnType, firmName: string, clientName: string,
    sales: int, purchases: int, margin: int, taxPaid: int, taxDue: int,
    itcMatched: int, itcProbable: int, itcSupplierDefault: int, itcMissingEntry: int,
    supplierDefaultCount: int, readinessScore: int, daysToDue: int,
    blockers: seq<Blocker>, rulePackVersion: string)

  const SMALL_NUMBER_CEILING: int := 100

  // ----- what is allowed -----

  function HeadlineMoney(f: Facts): seq<int> {
    [f.sales, f.purchases, f.margin, f.taxPaid, f.taxDue,
     f.itcMatched, f.itcProbable, f.itcSupplierDefault, f.itcMissingEntry]
  }

  predicate IsMoney(f: Facts, m: int) {
    m in HeadlineMoney(f) || exists i :: 0 <= i < |f.blockers| && f.blockers[i].paiseImpact == m
  }

  predicate IsCount(f: Facts, n: int) {
    n == f.supplierDefaultCount || n == f.readinessScore || n == f.daysToDue
  }

  predicate SmallForm(s: string, i: int) { s == Str(Abs(i)) || s == "-" + Str(Abs(i)) }

  predicate MoneyForm(s: string, m: int) { s == StrInt(m) || s == Str(Abs(m)) || s == Str(RupeesOf(m)) }

  predicate CountForm(s: string, n: int) { s == StrInt(n) || s == Str(Abs(n)) }

  /** `period[:4]` when there is a period at all. */
  function Year(f: Facts): string { if |f.period| < 4 then f.period else f.period[..4] }

  /** The forms a narration may contain. */
  ghost predicate IsAllowed(f: Facts, s: string) {
    || (exists i :: 0 <= i <= SMALL_NUMBER_CEILING && SmallForm(s, i))
    || (exists m :: IsMoney(f, m) && MoneyForm(s, m))
    || (exists n :: IsCount(f, n) && CountForm(s, n))
    || (f.period != "" && s == Year(f))
  }

  /** `_paise_to_rupees_int`: the rounded rupees, with the sign even when they round to zero. */
  function PaiseToRupeesInt(paise: int): string {
    if paise >= 0 then Str((paise + 50) / 100) else "-" + Str((-paise + 50) / 100)
  }

  /** One money fact adds its raw paise, their absolute value, and the rupee digits. */
  method AddMoney(allowed: set<string>, paise: int) returns (r: set<string>)
    ensures forall s :: s in r <==> s in allowed || MoneyForm(s, paise)
  {
    r := allowed + {StrInt(paise), Str(Abs(paise))};
    var rupeesAbs := LStripDash(PaiseToRupeesInt(paise));
    assert rupeesAbs == Str(RupeesOf(paise)) by {
      if paise < 0 {
        assert PaiseToRupeesInt(paise)[1..] == Str(RupeesOf(paise));
      }
    }
    r := r + {rupeesAbs};
    var grouped := IndianGrouped(rupeesAbs);
    assert LStripDash(rupeesAbs) == rupeesAbs;
    assert Remove(grouped, ',') == rupeesAbs by {
      RemoveGroup(rupeesAbs);
      assert |rupeesAbs| > 3 ==> "" + Group(rupeesAbs) == Group(rupeesAbs);
    }
    r := r + {Remove(grouped, ',')};
  }

  method AddCount(allowed: set<string>, n: int) returns (r: set<string>)
    ensures forall s :: s in r <==> s in allowed || CountForm(s, n)
  {
    r := allowed + {StrInt(n), Str(Abs(n))};
  }

  method AddHeadlines(f: Facts, allowed: set<string>) returns (r: set<string>)
    ensures forall s :: s in r <==> s in allowed || exists m :: m in HeadlineMoney(f) && MoneyForm(s, m)
  {
    r := allowed;
    var money := HeadlineMoney(f);
    for i := 0 to |money|
      invariant forall s :: s in r <==> s in allowed || exists m :: m in money[..i] && MoneyForm(s, m)
    {
      r := AddMoney(r, money[i]);
      assert money[..i + 1] == money[..i] + [money[i]];
    }
    assert money[..|money|] == money;
  }

  method AddBlockers(f: Facts, allowed: set<string>) returns (r: set<string>)
    ensures forall s :: s in r <==>
      s in allowed || exists i :: 0 <= i < |f.blockers| && MoneyForm(s, f.blockers[i].paiseImpact)
  {
    r := allowed;
    for k := 0 to |f.blockers|
      invariant forall s :: s in r <==> s in allowed || FromBlockers(f, k, s)
    {
      BlockersOneMore(f, k);
      r := AddMoney(r, f.blockers[k].paiseImpact);
    }
  }

  ghost predicate FromBlockers(f: Facts, k: nat, s: string)
    requires k <= |f.blockers|
  {
    exists i :: 0 <= i < k && MoneyForm(s, f.blockers[i].paiseImpact)
  }

  lemma BlockersOneMore(f: Facts, k: nat)
    requires k < |f.blockers|
    ensures forall s :: FromBlockers(f, k + 1, s) <==> FromBlockers(f, k, s) || MoneyForm(s, f.blockers[k].paiseImpact)
  {
  }

  method AddSmall() returns (r: set<string>)
    ensures forall s :: s in r <==> exists i :: 0 <= i <= SMALL_NUMBER_CEILING && SmallForm(s, i)
  {
    r := {};
    for k := 0 to SMALL_NUMBER_CEILING + 1
      invariant forall s :: s in r <==> exists i :: 0 <= i < k && SmallForm(s, i)
    {
      var grown := r + {Str(k), "-" + Str(k)};
      forall s
        ensures s in grown <==> exists i :: 0 <= i < k + 1 && SmallForm(s, i)
      {
        assert s in grown <==> s in r || SmallForm(s, k);
      }
      r := grown;
    }
  }

  /** The grown set is exactly the allowed forms, neither more nor fewer. */
  method BuildAllowedForms(f: Facts) returns (allowed: set<string>)
    ensures forall s :: s in allowed <==> IsAllowed(f, s)
  {
    var small := AddSmall();
    var money := AddHeadlines(f, small);
    var counts := AddCount(money, f.supplierDefaultCount);
    counts := AddCount(counts, f.readinessScore);
    counts := AddCount(counts, f.daysToDue);
    allowed := AddBlockers(f, counts);
    if f.period != "" {
      allowed := allowed + {Year(f)};
    }
    forall s
      ensures s in allowed <==> IsAllowed(f, s)
    {
      AllowedByParts(f, s);
    }
  }

  lemma AllowedByParts(f: Facts, s: string)
    ensures IsAllowed(f, s) <==>
      || (exists i :: 0 <= i <= SMALL_NUMBER_CEILING && SmallForm(s, i))
      || (exists m :: m in HeadlineMoney(f) && MoneyForm(s, m))
      || CountForm(s, f.supplierDefaultCount) || CountForm(s, f.readinessScore) || CountForm(s, f.daysToDue)
      || (exists i :: 0 <= i < |f.blockers| && MoneyForm(s, f.blockers[i].paiseImpact))
      || (f.period != "" && s == Year(f))
  {
    if i :| 0 <= i < |f.blockers| && MoneyForm(s, f.blockers[i].paiseImpact) {
      assert IsMoney(f, f.blockers[i].paiseImpact);
    }
    assert IsCount(f, f.supplierDefaultCount) && IsCount(f, f.readinessScore) && IsCount(f, f.daysToDue);
    if m :| m in HeadlineMoney(f) && MoneyForm(s, m) {
      assert IsMoney(f, m);
    }
  }

  // ----- what the forms mean as numbers -----

  /** An amount's absolute paise, or its whole rupees rounded half up. */
  predicate Tells(v: nat, paise: int) { v == Abs(paise) || v == (Abs(paise) + 50) / 100 }

  /** The numbers a narration may state, apart from the period's year, fact by fact. */
  ghost predicate ValueAllowed(f: Facts, v: nat) {
    || v <= 100
    || Tells(v, f.sales) || Tells(v, f.purchases) || Tells(v, f.margin) || Tells(v, f.taxPaid) || Tells(v, f.taxDue)
    || Tells(v, f.itcMatched) || Tells(v, f.itcProbable) || Tells(v, f.itcSupplierDefault)
    || Tells(v, f.itcMissingEntry)
    || (exists i :: 0 <= i < |f.blockers| && Tells(v, f.blockers[i].paiseImpact))
    || v == Abs(f.supplierDefaultCount) || v == Abs(f.readinessScore) || v == Abs(f.daysToDue)
  }

  lemma ValueByParts(f: Facts, v: nat)
    ensures ValueAllowed(f, v) <==>
      || v <= SMALL_NUMBER_CEILING
      || (exists m :: IsMoney(f, m) && (v == Abs(m) || v == RupeesOf(m)))
      || (exists n :: IsCount(f, n) && v == Abs(n))
  {
    forall m
      ensures Tells(v, m) <==> v == Abs(m) || v == RupeesOf(m)
    {
    }
    if m :| IsMoney(f, m) && (v == Abs(m) || v == RupeesOf(m)) {
      assert Tells(v, m);
    }
    HeadlinesAreMoney(f);
    if i :| 0 <= i < |f.blockers| && Tells(v, f.blockers[i].paiseImpact) {
      assert IsMoney(f, f.blockers[i].paiseImpact);
    }
    assert IsCount(f, f.supplierDefaultCount) && IsCount(f, f.readinessScore) && IsCount(f, f.daysToDue);
  }

  lemma HeadlinesAreMoney(f: Facts)
    ensures IsMoney(f, f.sales) && IsMoney(f, f.purchases) && IsMoney(f, f.margin) && IsMoney(f, f.taxPaid)
    ensures IsMoney(f, f.taxDue) && IsMoney(f, f.itcMatched) && IsMoney(f, f.itcProbable)
    ensures IsMoney(f, f.itcSupplierDefault) && IsMoney(f, f.itcMissingEntry)
  {
  }

  lemma NumeralIsStr(t: string, n: nat)
    requires IsNumeral(t)
    ensures t == Str(n) <==> Canonical(t) && Val(t) == n
    ensures t != "-" + Str(n)
  {
    ValStr(n);
    if Canonical(t) {
      StrVal(t);
    }
  }

  lemma SmallExactly(t: string)
    requires IsNumeral(t)
    ensures (exists i :: 0 <= i <= SMALL_NUMBER_CEILING && SmallForm(t, i)) <==>
      Canonical(t) && Val(t) <= SMALL_NUMBER_CEILING
  {
    if i :| 0 <= i <= SMALL_NUMBER_CEILING && SmallForm(t, i) {
      NumeralIsStr(t, i);
    }
    if Canonical(t) && Val(t) <= SMALL_NUMBER_CEILING {
      NumeralIsStr(t, Val(t));
      assert SmallForm(t, Val(t));
    }
  }

  lemma MoneyExactly(t: string, m: int)
    requires IsNumeral(t)
    ensures MoneyForm(t, m) <==> Canonical(t) && (Val(t) == Abs(m) || Val(t) == RupeesOf(m))
  {
    NumeralIsStr(t, Abs(m));
    NumeralIsStr(t, RupeesOf(m));
  }

  lemma CountExactly(t: string, n: int)
    requires IsNumeral(t)
    ensures CountForm(t, n) <==> Canonical(t) && Val(t) == Abs(n)
  {
    NumeralIsStr(t, Abs(n));
  }

  lemma MinusIs(v: nat, n: nat)
    ensures "-" + Str(v) != Str(n)
    ensures "-" + Str(v) == "-" + Str(n) <==> v == n
  {
    assert ("-" + Str(v))[0] == '-' && IsDigit(Str(n)[0]);
    assert ("-" + Str(v))[1..] == Str(v) && ("-" + Str(n))[1..] == Str(n);
    if Str(v) == Str(n) {
      StrInjective(v, n);
    }
  }

  lemma NegativeForm(v: int, m: int)
    requires v > 0
    ensures SmallForm("-" + Str(v), m) <==> Abs(m) == v
    ensures MoneyForm("-" + Str(v), m) <==> m == -v
    ensures CountForm("-" + Str(v), m) <==> m == -v
  {
    MinusIs(v, Abs(m));
    MinusIs(v, RupeesOf(m));
  }

  lemma NegativeSmall(v: int)
    requires v > 0
    ensures (exists i :: 0 <= i <= SMALL_NUMBER_CEILING && SmallForm("-" + Str(v), i)) <==> v <= 100
  {
    NegativeForm(v, v);
    forall i | SmallForm("-" + Str(v), i)
      ensures Abs(i) == v
    {
      NegativeForm(v, i);
    }
  }

  lemma NegativeMoney(f: Facts, v: int)
    requires v > 0
    ensures (exists m :: IsMoney(f, m) && MoneyForm("-" + Str(v), m)) <==> IsMoney(f, -v)
  {
    NegativeForm(v, -v);
    forall m | MoneyForm("-" + Str(v), m)
      ensures m == -v
    {
      NegativeForm(v, m);
    }
  }

  lemma NegativeCount(f: Facts, v: int)
    requires v > 0
    ensures (exists n :: IsCount(f, n) && CountForm("-" + Str(v), n)) <==> IsCount(f, -v)
  {
    NegativeForm(v, -v);
    forall n | CountForm("-" + Str(v), n)
      ensures n == -v
    {
      NegativeForm(v, n);
    }
  }

  /** The signed forms in the set, which no scanned token takes: up to a hundred, and the negative facts and counts. */
  lemma NegativeForms(f: Facts, v: int)
    requires v > 0 && (f.period == "" || f.period[0] != '-')
    ensures IsAllowed(f, "-" + Str(v)) <==>
      v <= 100 || IsMoney(f, -v) || -v == f.supplierDefaultCount || -v == f.readinessScore || -v == f.daysToDue
  {
    NegativeSmall(v);
    NegativeMoney(f, v);
    NegativeCount(f, v);
    assert ("-" + Str(v))[0] == '-';
  }

  /** A scanned token is allowed exactly when it is printed canonically and its value is one of the
      permitted numbers, or it is the period's year. */
  lemma TokenAllowedExactly(f: Facts, t: string)
    requires IsNumeral(t)
    ensures IsAllowed(f, t) <==>
      || (Canonical(t) && ValueAllowed(f, Val(t)))
      || (f.period != "" && t == if |f.period| < 4 then f.period else f.period[..4])
  {
    SmallExactly(t);
    ValueByParts(f, Val(t));
    forall m
      ensures MoneyForm(t, m) <==> Canonical(t) && (Val(t) == Abs(m) || Val(t) == RupeesOf(m))
    {
      MoneyExactly(t, m);
    }
    forall n
      ensures CountForm(t, n) <==> Canonical(t) && Val(t) == Abs(n)
    {
      CountExactly(t, n);
    }
  }

  // ----- the check -----

  function NotIn(tokens: seq<string>, allowed: set<string>): seq<string> {
    if tokens == [] then []
    else NotIn(tokens[..|tokens| - 1], allowed)
         + (if tokens[|tokens| - 1] in allowed then [] else [tokens[|tokens| - 1]])
  }

  /** Collapses runs of equal neighbours. */
  function Collapse(s: seq<string>): (r: seq<string>)
    ensures s != [] ==> r != [] && r[0] == s[0]
  {
    if |s| <= 1 then s
    else if s[0] == s[1] then Collapse(s[1..])
    else [s[0]] + Collapse(s[1..])
  }

  lemma {:induction false} CollapseLast(s: seq<string>)
    requires s != []
    ensures Collapse(s) != [] && Collapse(s)[|Collapse(s)| - 1] == s[|s| - 1]
  {
    if |s| > 1 {
      CollapseLast(s[1..]);
    }
  }

  lemma {:induction false} CollapseAppend(s: seq<string>, t: string)
    ensures Collapse(s + [t]) == if s != [] && s[|s| - 1] == t then Collapse(s) else Collapse(s) + [t]
  {
    if |s| <= 1 {
      assert (s + [t])[|s|..] == [t];
    } else {
      CollapseAppend(s[1..], t);
      assert (s + [t])[1..] == s[1..] + [t];
    }
  }

  lemma {:induction false} CollapseIs(s: seq<string>)
    ensures forall t :: t in Collapse(s) <==> t in s
    ensures forall i :: 0 < i < |Collapse(s)| ==> Collapse(s)[i - 1] != Collapse(s)[i]
  {
    if |s| > 1 {
      CollapseIs(s[1..]);
      assert s == [s[0]] + s[1..];
    }
  }

  lemma {:induction false} NotInIs(tokens: seq<string>, allowed: set<string>)
    ensures forall t :: t in NotIn(tokens, allowed) <==> t in tokens && t !in allowed
  {
    if tokens != [] {
      NotInIs(tokens[..|tokens| - 1], allowed);
      assert tokens == tokens[..|tokens| - 1] + [tokens[|tokens| - 1]];
    }
  }

  /** What the next token adds: nothing when it is allowed or repeats the last bad one. */
  function Absorb(out: seq<string>, tok: string, allowed: set<string>): seq<string> {
    if tok in allowed || (out != [] && out[|out| - 1] == tok) then out else out + [tok]
  }

  function Absorbed(tokens: seq<string>, allowed: set<string>): seq<string> {
    if tokens == [] then [] else Absorb(Absorbed(tokens[..|tokens| - 1], allowed), tokens[|tokens| - 1], allowed)
  }

  lemma CollapseOneMore(bad: seq<string>, tok: string, allowed: set<string>)
    ensures Absorb(Collapse(bad), tok, allowed) == Collapse(bad + if tok in allowed then [] else [tok])
  {
    assert bad + [] == bad;
    CollapseAppend(bad, tok);
    if bad != [] {
      CollapseLast(bad);
    }
  }

  lemma {:induction false} AbsorbedIs(tokens: seq<string>, allowed: set<string>)
    ensures Absorbed(tokens, allowed) == Collapse(NotIn(tokens, allowed))
  {
    if tokens != [] {
      AbsorbedIs(tokens[..|tokens| - 1], allowed);
      CollapseOneMore(NotIn(tokens[..|tokens| - 1], allowed), tokens[|tokens| - 1], allowed);
    }
  }

  /** The bad tokens, in order, neighbouring repeats reported once. */
  method FindHallucinated(text: string, allowed: set<string>) returns (out: seq<string>)
    ensures out == Collapse(NotIn(Tokens(text), allowed))
    ensures forall t :: t in out <==> t in Tokens(text) && t !in allowed
    ensures forall i :: 0 < i < |out| ==> out[i - 1] != out[i]
  {
    var tokens := ExtractNumberTokens(text);
    out := [];
    for i := 0 to |tokens|
      invariant out == Absorbed(tokens[..i], allowed)
    {
      var tok := tokens[i];
      assert tokens[..i + 1][..i] == tokens[..i];
      if tok in allowed {
        continue;
      }
      if out != [] && out[|out| - 1] == tok {
        continue;
      }
      out := out + [tok];
    }
    assert tokens[..|tokens|] == tokens;
    AbsorbedIs(tokens, allowed);
    ReportIs(tokens, allowed);
  }

  lemma ReportIs(tokens: seq<string>, allowed: set<string>)
    ensures var out := Collapse(NotIn(tokens, allowed));
      (forall t :: t in out <==> t in tokens && t !in allowed) && forall i :: 0 < i < |out| ==> out[i - 1] != out[i]
  {
    CollapseIs(NotIn(tokens, allowed));
    NotInIs(tokens, allowed);
  }

  /** A text is honest when every number it contains is an allowed form. */
  ghost predicate Accepts(f: Facts, text: string) {
    forall t :: t in Tokens(text) ==> IsAllowed(f, t)
  }

  datatype Block = Block(name: string, text: string)
  datatype Verdict = Accepted | NumberHallucination(offending: seq<string>)

  ghost predicate AcceptsAll(f: Facts, blocks: seq<Block>) {
    forall i :: 0 <= i < |blocks| ==> Accepts(f, blocks[i].text)
  }

  /** One offending entry: the block's name and the token. */
  ghost predicate Reports(f: Facts, blocks: seq<Block>, entry: string) {
    exists i, t :: 0 <= i < |blocks| && t in Tokens(blocks[i].text) && !IsAllowed(f, t)
      && entry == blocks[i].name + ":" + t
  }

  method Prefixed(name: string, bad: seq<string>) returns (r: seq<string>)
    ensures |r| == |bad| && forall i :: 0 <= i < |r| ==> r[i] == name + ":" + bad[i]
  {
    r := [];
    for i := 0 to |bad|
      invariant |r| == i && forall k :: 0 <= k < i ==> r[k] == name + ":" + bad[k]
    {
      r := r + [name + ":" + bad[i]];
    }
  }

  /** What is known about the blocks looked at so far. */
  ghost predicate Summarises(f: Facts, blocks: seq<Block>, offending: seq<string>) {
    (offending == [] <==> AcceptsAll(f, blocks)) && forall e :: e in offending <==> Reports(f, blocks, e)
  }

  method ValidateOutputBlocks(f: Facts, blocks: seq<Block>) returns (v: Verdict)
    ensures v.Accepted? <==> AcceptsAll(f, blocks)
    ensures v.NumberHallucination? ==> forall e :: e in v.offending <==> Reports(f, blocks, e)
  {
    var allowed := BuildAllowedForms(f);
    var offending: seq<string> := [];
    for k := 0 to |blocks|
      invariant Summarises(f, blocks[..k], offending)
    {
      var bad := FindHallucinated(blocks[k].text, allowed);
      var entries := Prefixed(blocks[k].name, bad);
      SummarisesOneMore(f, blocks, k, offending, bad, entries);
      offending := offending + entries;
    }
    assert blocks[..|blocks|] == blocks;
    v := if offending != [] then NumberHallucination(offending) else Accepted;
  }

  lemma SummarisesOneMore(f: Facts, blocks: seq<Block>, k: nat, offending: seq<string>,
                          bad: seq<string>, entries: seq<string>)
    requires k < |blocks| && |entries| == |bad| && Summarises(f, blocks[..k], offending)
    requires forall t :: t in bad <==> t in Tokens(blocks[k].text) && !IsAllowed(f, t)
    requires forall i :: 0 <= i < |bad| ==> entries[i] == blocks[k].name + ":" + bad[i]
    ensures Summarises(f, blocks[..k + 1], offending + entries)
  {
    AcceptsOneMore(f, blocks, k, bad);
    ReportsOneMore(f, blocks, k, bad, entries);
  }

  lemma AcceptsOneMore(f: Facts, blocks: seq<Block>, k: nat, bad: seq<string>)
    requires k < |blocks|
    requires forall t :: t in bad <==> t in Tokens(blocks[k].text) && !IsAllowed(f, t)
    ensures AcceptsAll(f, blocks[..k + 1]) <==> AcceptsAll(f, blocks[..k]) && bad == []
  {
    assert blocks[..k + 1] == blocks[..k] + [blocks[k]];
    if bad != [] {
      assert bad[0] in bad && !Accepts(f, blocks[k].text);
    }
  }

  lemma ReportsOneMore(f: Facts, blocks: seq<Block>, k: nat, bad: seq<string>, entries: seq<string>)
    requires k < |blocks| && |entries| == |bad|
    requires forall t :: t in bad <==> t in Tokens(blocks[k].text) && !IsAllowed(f, t)
    requires forall i :: 0 <= i < |bad| ==> entries[i] == blocks[k].name + ":" + bad[i]
    ensures forall e :: Reports(f, blocks[..k + 1], e) <==> Reports(f, blocks[..k], e) || e in entries
  {
    forall e
      ensures Reports(f, blocks[..k + 1], e) <==> Reports(f, blocks[..k], e) || e in entries
    {
      if Reports(f, blocks[..k + 1], e) {
        var i, t :| 0 <= i < k + 1 && t in Tokens(blocks[..k + 1][i].text) && !IsAllowed(f, t)
          && e == blocks[..k + 1][i].name + ":" + t;
        if i == k {
          var j :| 0 <= j < |bad| && bad[j] == t;
          assert entries[j] == e;
        } else {
          assert blocks[..k][i] == blocks[i];
        }
      }
      if e in entries {
        var j :| 0 <= j < |entries| && entries[j] == e;
        assert blocks[..k + 1][k] == blocks[k] && bad[j] in bad;
      }
      if Reports(f, blocks[..k], e) {
        var i, t :| 0 <= i < k && t in Tokens(blocks[..k][i].text) && !IsAllowed(f, t)
          && e == blocks[..k][i].name + ":" + t;
        assert blocks[..k + 1][i] == blocks[..k][i];
      }
    }
  }

  /** Soundness in numbers: an accepted text states no whole number outside the fact sheet. */
  lemma AcceptedNumbersAreFacts(f: Facts, text: string, t: string)
    requires Accepts(f, text) && t in Tokens(text)
    ensures IsNumeral(t) && (ValueAllowed(f, Val(t)) || t == Year(f))
  {
    TokensAreNumerals(text);
    TokenAllowedExactly(f, t);
  }

  /** A decimal states whatever it likes: between two texts it never decides the verdict. */
  lemma DecimalsAreIgnored(f: Facts, a: string, whole: string, frac: string, b: string)
    requires a == [] || Separates(a[|a| - 1])
    requires AllInRun(whole) && whole != [] && IsDigit(whole[0]) && AllDigits(frac) && frac != []
    requires Closes(b)
    ensures Accepts(f, a + (whole + ("." + frac)) + b) <==> Accepts(f, a) && Accepts(f, b)
  {
    var d := whole + ("." + frac);
    TokensOfDecimal(whole, frac);
    TokensConcat(a + d, b);
    if a == [] {
      assert a + d == d;
      TokensOfNothing();
    } else {
      TokensAfterSeparator(a, d);
      assert Tokens(a) + [] == Tokens(a);
    }
    assert Tokens(a + d + b) == Tokens(a) + Tokens(b);
  }
}
