/** The template narrator, and the theorem that the validator never fires on its own words. */
module MockNarrator {
  import opened Periods
  import opened Digits
  import opened IndianGrouping
  import opened NumberScanner
  import opened Validator

  datatype Language = En | Hi | Kn | Mr
  datatype Output = Output(
    health: string, taxPosition: string, attention: string, askYourCa: string,
    provider: string, model: string, language: Language)

  const BULLET := "\U{2022} "
  const DASH := " \U{2014} "

  const ATTENTION_HEAD := "The items below need attention " + "before filing:" + "\n"

  function MonthName(m: nat): string
    requires 1 <= m <= 12
  {
    ["January", "February", "March", "April", "May", "June", "July", "August",
     "September", "October", "November", "December"][m - 1]
  }

  predicate WellFormed(period: string) {
    |period| == 6 && IsNumeral(period) && 1 <= Val(period[4..]) <= 12
  }

  /** "July 2026", or the raw period when it is malformed. */
  function PeriodLabel(period: string): string {
    if WellFormed(period) then MonthName(Val(period[4..])) + " " + period[..4] else period
  }

  function ReturnName(r: ReturnType): string { if r == GSTR1 then "GSTR1" else "GSTR3B" }

  function Tag(l: Language): string {
    match l
    case En => ""
    case Hi => "[hi] "
    case Kn => "[kn] "
    case Mr => "[mr] "
  }

  // ----- the templates -----

  function Health(f: Facts): string {
    "For " + PeriodLabel(f.period) + ", sales came in at " + Rupees(f.sales)
    + " and purchases at " + Rupees(f.purchases) + ", leaving a margin of " + Rupees(f.margin) + "."
  }

  function DueLine(f: Facts): string {
    if f.daysToDue >= 0 then
      "You have " + StrInt(f.daysToDue) + " days to the " + ReturnName(f.returnType) + " due date."
    else
      "The " + ReturnName(f.returnType) + " due date is " + StrInt(Abs(f.daysToDue)) + " days past."
  }

  function TaxPosition(f: Facts): string {
    "Tax paid so far this period is " + Rupees(f.taxPaid) + "; tax due is " + Rupees(f.taxDue)
    + ". Filing readiness stands at " + StrInt(f.readinessScore) + " out of 100. " + DueLine(f)
  }

  function OwnerLabel(o: Owner): string { if o == Ca then "your CA" else "you" }

  function Bullet(b: Blocker): string {
    BULLET + b.description + DASH + Rupees(b.paiseImpact) + ", " + OwnerLabel(b.owner) + " to act."
  }

  function Bullets(bs: seq<Blocker>): seq<string> {
    seq(|bs|, i requires 0 <= i < |bs| => Bullet(bs[i]))
  }

  /** `top_blockers[:3]`. */
  function Shown(f: Facts): seq<Blocker> { if |f.blockers| <= 3 then f.blockers else f.blockers[..3] }

  function Attention(f: Facts): string {
    if f.blockers == [] then "No action items outstanding for this period."
    else ATTENTION_HEAD + Join("\n", Bullets(Shown(f)))
  }

  function AskYourCa(f: Facts): string {
    if f.supplierDefaultCount > 0 then
      "Ask your CA about the " + StrInt(f.supplierDefaultCount) + " suppliers whose ITC is at risk ("
      + Rupees(f.itcSupplierDefault) + " total)."
    else ""
  }

  function MockOutput(f: Facts, l: Language): Output {
    Output(Tag(l) + Health(f), Tag(l) + TaxPosition(f), Tag(l) + Attention(f),
           if AskYourCa(f) == "" then "" else Tag(l) + AskYourCa(f), "mock", "template-v1", l)
  }

  method Narrate(f: Facts, l: Language) returns (out: Output)
    ensures out == MockOutput(f, l)
    ensures States(f, out)
  {
    MockStates(f, l);
    var sales := FormatRupees(f.sales);
    var purchases := FormatRupees(f.purchases);
    var margin := FormatRupees(f.margin);
    var health := "For " + PeriodLabel(f.period) + ", sales came in at " + sales
      + " and purchases at " + purchases + ", leaving a margin of " + margin + ".";
    var paid := FormatRupees(f.taxPaid);
    var due := FormatRupees(f.taxDue);
    var tax := "Tax paid so far this period is " + paid + "; tax due is " + due
      + ". Filing readiness stands at " + StrInt(f.readinessScore) + " out of 100. " + DueLine(f);
    var attention := RenderAttention(f);
    var ask := "";
    if f.supplierDefaultCount > 0 {
      var atRisk := FormatRupees(f.itcSupplierDefault);
      ask := "Ask your CA about the " + StrInt(f.supplierDefaultCount) + " suppliers whose ITC is at risk ("
        + atRisk + " total).";
    }
    out := Output(Tag(l) + health, Tag(l) + tax, Tag(l) + attention, if ask == "" then "" else Tag(l) + ask,
                  "mock", "template-v1", l);
  }

  method RenderAttention(f: Facts) returns (r: string)
    ensures r == Attention(f)
  {
    if f.blockers == [] {
      return "No action items outstanding for this period.";
    }
    var shown := Shown(f);
    var bullets: seq<string> := [];
    for i := 0 to |shown|
      invariant bullets == Bullets(shown[..i])
    {
      var b := shown[i];
      var impact := FormatRupees(b.paiseImpact);
      assert Bullets(shown[..i + 1]) == Bullets(shown[..i]) + [Bullet(b)];
      bullets := bullets + [BULLET + b.description + DASH + impact + ", " + OwnerLabel(b.owner) + " to act."];
    }
    assert shown[..|shown|] == shown;
    r := ATTENTION_HEAD + Join("\n", bullets);
  }

  function ToBlocks(out: Output): seq<Block> {
    [Block("page1_health", out.health), Block("page1_tax_position", out.taxPosition),
     Block("page2_attention", out.attention), Block("page2_ask_your_ca", out.askYourCa)]
  }

  // ----- scanning a template -----

  predicate NoDigits(s: string) { forall i :: 0 <= i < |s| ==> !IsDigit(s[i]) }

  /** The seams of the templates: scanning distributes over each. */
  lemma Seam(a: string, b: string)
    requires Closes(b) || (a != [] && Separates(a[|a| - 1]))
    ensures Tokens(a + b) == Tokens(a) + Tokens(b)
  {
    if Closes(b) {
      TokensConcat(a, b);
    } else {
      TokensAfterSeparator(a, b);
    }
  }

  /** Plain words state nothing. */
  lemma ThenWords(a: string, w: string)
    requires NoDigits(w) && Closes(w)
    ensures Tokens(a + w) == Tokens(a)
  {
    Seam(a, w);
    NoDigitsNoTokens(w);
  }

  /** Words that end in a separator, then any text. */
  lemma AfterWords(w: string, t: string)
    requires NoDigits(w) && w != [] && Separates(w[|w| - 1])
    ensures Tokens(w + t) == Tokens(t)
  {
    Seam(w, t);
    NoDigitsNoTokens(w);
  }

  /** Words, then a printed amount: one more number, its whole rupees. */
  lemma ThenPriced(a: string, w: string, m: int)
    requires NoDigits(w) && Closes(w)
    ensures Tokens(a + w + Rupees(m)) == Tokens(a) + [Str(RupeesOf(m))]
  {
    ThenWords(a, w);
    Seam(a + w, Rupees(m));
    TokensOfRupees(m);
  }

  /** Words that end in a separator, then a printed count. */
  lemma ThenCounted(a: string, w: string, n: int)
    requires NoDigits(w) && Closes(w) && w != [] && Separates(w[|w| - 1])
    ensures Tokens(a + w + StrInt(n)) == Tokens(a) + [Str(Abs(n))]
  {
    ThenWords(a, w);
    assert (a + w)[|a + w| - 1] == w[|w| - 1];
    Seam(a + w, StrInt(n));
    TokensOfInt(n);
  }

  /** Words of a template: no digits, and nothing that could lengthen a number before them. */
  predicate Words(w: string) { NoDigits(w) && Closes(w) }

  /** The same, ending where a number may begin. */
  predicate Lead(w: string) { Words(w) && w != [] && Separates(w[|w| - 1]) }

  lemma JustPriced(w: string, m: int)
    requires Words(w)
    ensures Tokens(w + Rupees(m)) == [Str(RupeesOf(m))]
  {
    TokensOfNothing();
    ThenPriced("", w, m);
    assert "" + w == w;
  }

  lemma JustCounted(w: string, n: int)
    requires Lead(w)
    ensures Tokens(w + StrInt(n)) == [Str(Abs(n))]
  {
    TokensOfNothing();
    ThenCounted("", w, n);
    assert "" + w == w;
  }

  /** A text and three printed amounts, with words around them. */
  lemma ThreePriced(u: string, t: string, v: string, k: int, w: string, m: int, x: string, n: int, end: string)
    requires Lead(u) && Words(v) && Words(w) && Words(x) && Words(end)
    ensures Tokens(u + t + v + Rupees(k) + w + Rupees(m) + x + Rupees(n) + end)
      == Tokens(t) + [Str(RupeesOf(k)), Str(RupeesOf(m)), Str(RupeesOf(n))]
  {
    AfterWords(u, t);
    ThenPriced(u + t, v, k);
    TwoPriced(u + t + v + Rupees(k), w, m, x, n, end);
  }

  lemma TwoPriced(a: string, v: string, m: int, w: string, n: int, end: string)
    requires Words(v) && Words(w) && Words(end)
    ensures Tokens(a + v + Rupees(m) + w + Rupees(n) + end) == Tokens(a) + [Str(RupeesOf(m)), Str(RupeesOf(n))]
  {
    ThenPriced(a, v, m);
    ThenPriced(a + v + Rupees(m), w, n);
    ThenWords(a + v + Rupees(m) + w + Rupees(n), end);
  }

  /** A text between words. */
  lemma Framed(a: string, w: string, t: string, end: string)
    requires Lead(w) && Words(end)
    ensures Tokens(a + w + t + end) == Tokens(a) + Tokens(t)
  {
    ThenWords(a, w);
    assert (a + w)[|a + w| - 1] == w[|w| - 1];
    Seam(a + w, t);
    ThenWords(a + w + t, end);
  }

  lemma JustTwoPriced(v: string, k: int, w: string, m: int)
    requires Words(v) && Words(w)
    ensures Tokens(v + Rupees(k) + w + Rupees(m)) == [Str(RupeesOf(k)), Str(RupeesOf(m))]
  {
    JustPriced(v, k);
    ThenPriced(v + Rupees(k), w, m);
  }

  /** A count, then a text that closes it, and another text. */
  lemma CountedThen(b: string, x: string, n: int, u: string, t: string)
    requires Lead(x) && Closes(u) && u != [] && Separates(u[|u| - 1])
    ensures Tokens(b + x + StrInt(n) + u + t) == Tokens(b) + [Str(Abs(n))] + Tokens(u) + Tokens(t)
  {
    var c := b + x + StrInt(n);
    ThenCounted(b, x, n);
    Seam(c, u);
    assert (c + u)[|c + u| - 1] == u[|u| - 1];
    Seam(c + u, t);
  }

  /** Two amounts and such a count. */
  lemma TwoPricedOneCounted(v: string, k: int, w: string, m: int, x: string, n: int, u: string, t: string)
    requires Words(v) && Words(w) && Lead(x) && Closes(u) && u != [] && Separates(u[|u| - 1])
    ensures Tokens(v + Rupees(k) + w + Rupees(m) + x + StrInt(n) + u + t)
      == [Str(RupeesOf(k)), Str(RupeesOf(m))] + [Str(Abs(n))] + Tokens(u) + Tokens(t)
  {
    JustTwoPriced(v, k, w, m);
    CountedThen(v + Rupees(k) + w + Rupees(m), x, n, u, t);
  }

  /** A count and an amount, with words around them. */
  lemma OneCountedOnePriced(v: string, n: int, w: string, m: int, end: string)
    requires Lead(v) && Words(w) && Words(end)
    ensures Tokens(v + StrInt(n) + w + Rupees(m) + end) == [Str(Abs(n)), Str(RupeesOf(m))]
  {
    JustCounted(v, n);
    ThenPriced(v + StrInt(n), w, m);
    ThenWords(v + StrInt(n) + w + Rupees(m), end);
  }

  // ----- which numbers each block states, in order -----

  lemma HealthWords()
    ensures Lead("For ") && Words(", sales came in at ") && Words(" and purchases at ")
    ensures Words(", leaving a margin of ") && Words(".")
  {
  }

  /** The period label's own numbers, then sales, purchases and margin. */
  lemma HealthStates(f: Facts)
    ensures Tokens(Health(f)) ==
      Tokens(PeriodLabel(f.period)) + [Str(RupeesOf(f.sales)), Str(RupeesOf(f.purchases)), Str(RupeesOf(f.margin))]
  {
    HealthWords();
    ThreePriced("For ", PeriodLabel(f.period), ", sales came in at ", f.sales, " and purchases at ", f.purchases,
                ", leaving a margin of ", f.margin, ".");
  }

  /** The digit in a return's name. */
  function ReturnDigit(r: ReturnType): string { match r case GSTR1 => "1" case GSTR3B => "3" }

  lemma ReturnNameStates(r: ReturnType)
    ensures Tokens(ReturnName(r)) == [ReturnDigit(r)]
    ensures Separates(ReturnName(r)[0])
  {
    assert "GSTR1" == "GSTR" + StrInt(1) && Str(1) == "1";
    assert "GSTR3B" == "GSTR" + StrInt(3) + "B" && Str(3) == "3";
    JustCounted("GSTR", 1);
    JustCounted("GSTR", 3);
    ThenWords("GSTR" + StrInt(3), "B");
  }

  /** Days left before the return's name, or days past after it. */
  lemma DueLineStates(f: Facts)
    ensures Tokens(DueLine(f)) ==
      if f.daysToDue >= 0 then [Str(f.daysToDue), ReturnDigit(f.returnType)]
      else [ReturnDigit(f.returnType), Str(-f.daysToDue)]
    ensures Separates(DueLine(f)[0])
  {
    ReturnNameStates(f.returnType);
    if f.daysToDue >= 0 {
      JustCounted("You have ", f.daysToDue);
      Framed("You have " + StrInt(f.daysToDue), " days to the ", ReturnName(f.returnType), " due date.");
    } else {
      DaysPast("The " + ReturnName(f.returnType), f.daysToDue);
      AfterWords("The ", ReturnName(f.returnType));
    }
  }

  lemma DaysPast(a: string, days: int)
    ensures Tokens(a + " due date is " + StrInt(Abs(days)) + " days past.") == Tokens(a) + [Str(Abs(days))]
  {
    ThenCounted(a, " due date is ", Abs(days));
    ThenWords(a + " due date is " + StrInt(Abs(days)), " days past.");
  }

  lemma TaxWords()
    ensures Words("Tax paid so far this period is ") && Words("; tax due is ") && Lead(". Filing readiness stands at ")
  {
  }

  lemma OutOfHundredStates(u: string)
    requires u == " out of 100. "
    ensures Tokens(u) == ["100"] && Closes(u) && u != [] && Separates(u[|u| - 1])
  {
    HundredReads();
    assert u == " out of " + "100" + ". ";
    assert Lead(" out of ") && Words(". ");
    JustCounted(" out of ", 100);
    ThenWords(" out of " + "100", ". ");
  }

  lemma HundredReads()
    ensures StrInt(100) == Str(100) == "100"
  {
    assert Str(10) == Str(1) + "0" && Str(100) == Str(10) + "0";
  }

  /** Tax paid, tax due, the readiness score out of a hundred, and the due line's numbers. */
  lemma TaxPositionStates(f: Facts)
    ensures Tokens(TaxPosition(f)) ==
      [Str(RupeesOf(f.taxPaid)), Str(RupeesOf(f.taxDue))] + [Str(Abs(f.readinessScore))] + ["100"] + Tokens(DueLine(f))
  {
    var u := " out of 100. ";
    TaxWords();
    OutOfHundredStates(u);
    TwoPricedOneCounted("Tax paid so far this period is ", f.taxPaid, "; tax due is ", f.taxDue,
                        ". Filing readiness stands at ", f.readinessScore, u, DueLine(f));
  }

  /** The description's own numbers, then the impact. */
  lemma BulletStates(b: Blocker)
    ensures Tokens(Bullet(b)) == Tokens(b.description) + [Str(RupeesOf(b.paiseImpact))]
  {
    AfterWords(BULLET, b.description);
    ThenPriced(BULLET + b.description, DASH, b.paiseImpact);
    BulletTail(BULLET + b.description + DASH + Rupees(b.paiseImpact), b.owner);
  }

  lemma BulletTail(c: string, o: Owner)
    ensures Tokens(c + ", " + OwnerLabel(o) + " to act.") == Tokens(c)
  {
    ThenWords(c, ", ");
    ThenWords(c + ", ", "your CA");
    ThenWords(c + ", ", "you");
    ThenWords(c + ", " + OwnerLabel(o), " to act.");
  }

  /** The numbers of a list of blockers: each description's own, then its impact. */
  function BlockerNumbers(bs: seq<Blocker>): seq<string> {
    if bs == [] then []
    else Tokens(bs[0].description) + [Str(RupeesOf(bs[0].paiseImpact))] + BlockerNumbers(bs[1..])
  }

  lemma {:induction false} JoinStates(bs: seq<Blocker>)
    ensures Tokens(Join("\n", Bullets(bs))) == BlockerNumbers(bs)
  {
    if bs == [] {
      TokensOfNothing();
    } else {
      var parts := Bullets(bs);
      assert parts[1..] == Bullets(bs[1..]);
      BulletStates(bs[0]);
      JoinStates(bs[1..]);
      if |bs| > 1 {
        ThenWords(parts[0], "\n");
        Seam(parts[0] + "\n", Join("\n", parts[1..]));
      } else {
        assert BlockerNumbers(bs[1..]) == [];
      }
    }
  }

  lemma NoDigitsConcat(a: string, b: string)
    requires NoDigits(a) && NoDigits(b)
    ensures NoDigits(a + b)
  {
  }

  lemma AttentionHeadStates()
    ensures Tokens(ATTENTION_HEAD) == []
    ensures ATTENTION_HEAD != [] && Separates(ATTENTION_HEAD[|ATTENTION_HEAD| - 1])
  {
    var a, b := "The items below need attention ", "before filing:";
    NoDigitsConcat(a, b);
    NoDigitsConcat(a + b, "\n");
    NoDigitsNoTokens(ATTENTION_HEAD);
    LastIs(a + b, '\n');
  }

  lemma LastIs(a: string, c: char)
    ensures (a + [c])[|a + [c]| - 1] == c
  {
  }

  /** The first three blockers, in order. */
  lemma AttentionStates(f: Facts)
    ensures Tokens(Attention(f)) == BlockerNumbers(if |f.blockers| <= 3 then f.blockers else f.blockers[..3])
  {
    if f.blockers == [] {
      NoDigitsNoTokens("No action items outstanding for this period.");
    } else {
      JoinStates(Shown(f));
      AttentionHeadStates();
      Seam(ATTENTION_HEAD, Join("\n", Bullets(Shown(f))));
    }
  }

  lemma AskWords()
    ensures Lead("Ask your CA about the ") && Words(" suppliers whose ITC is at risk (") && Words(" total).")
  {
  }

  /** The number of defaulting suppliers and the credit at risk, when there are any. */
  lemma AskYourCaStates(f: Facts)
    ensures Tokens(AskYourCa(f)) ==
      if f.supplierDefaultCount > 0 then [Str(f.supplierDefaultCount), Str(RupeesOf(f.itcSupplierDefault))] else []
  {
    TokensOfNothing();
    if f.supplierDefaultCount > 0 {
      AskWords();
      OneCountedOnePriced("Ask your CA about the ", f.supplierDefaultCount, " suppliers whose ITC is at risk (",
                          f.itcSupplierDefault, " total).");
    }
  }

  lemma TagStates(l: Language, block: string)
    ensures Tokens(Tag(l) + block) == Tokens(block)
  {
    if l == En {
      assert Tag(l) + block == block;
    } else {
      AfterWords(Tag(l), block);
    }
  }

  /** Every number of the four blocks, in order, from the fact it states. */
  ghost predicate States(f: Facts, out: Output) {
    && Tokens(out.health) ==
      Tokens(PeriodLabel(f.period)) + [Str(RupeesOf(f.sales)), Str(RupeesOf(f.purchases)), Str(RupeesOf(f.margin))]
    && Tokens(out.taxPosition) ==
      [Str(RupeesOf(f.taxPaid)), Str(RupeesOf(f.taxDue)), Str(Abs(f.readinessScore)), "100"]
      + (if f.daysToDue >= 0 then [Str(f.daysToDue), ReturnDigit(f.returnType)]
         else [ReturnDigit(f.returnType), Str(-f.daysToDue)])
    && Tokens(out.attention) == BlockerNumbers(if |f.blockers| <= 3 then f.blockers else f.blockers[..3])
    && Tokens(out.askYourCa) ==
      if f.supplierDefaultCount > 0 then [Str(f.supplierDefaultCount), Str(RupeesOf(f.itcSupplierDefault))] else []
  }

  /** The language tag states nothing. */
  lemma TagsStateNothing(f: Facts, l: Language)
    ensures var out := MockOutput(f, l);
      Tokens(out.health) == Tokens(Health(f)) && Tokens(out.taxPosition) == Tokens(TaxPosition(f)) &&
      Tokens(out.attention) == Tokens(Attention(f)) && Tokens(out.askYourCa) == Tokens(AskYourCa(f))
  {
    TagStates(l, Health(f));
    TagStates(l, TaxPosition(f));
    TagStates(l, Attention(f));
    TagStates(l, AskYourCa(f));
  }

  lemma TaxNumbers(f: Facts)
    ensures Tokens(TaxPosition(f)) ==
      [Str(RupeesOf(f.taxPaid)), Str(RupeesOf(f.taxDue)), Str(Abs(f.readinessScore)), "100"]
      + (if f.daysToDue >= 0 then [Str(f.daysToDue), ReturnDigit(f.returnType)]
         else [ReturnDigit(f.returnType), Str(-f.daysToDue)])
  {
    TaxPositionStates(f);
    DueLineStates(f);
  }

  /** In every language the mock narration states exactly those numbers. */
  lemma MockStates(f: Facts, l: Language)
    ensures States(f, MockOutput(f, l))
  {
    TagsStateNothing(f, l);
    HealthStates(f);
    TaxNumbers(f);
    AttentionStates(f);
    AskYourCaStates(f);
  }

  // ----- the theorem -----

  ghost predicate AllAllowed(f: Facts, ts: seq<string>) { forall t :: t in ts ==> IsAllowed(f, t) }

  lemma MoneyAllowed(f: Facts, m: int)
    requires IsMoney(f, m)
    ensures IsAllowed(f, Str(RupeesOf(m)))
  {
    assert MoneyForm(Str(RupeesOf(m)), m);
  }

  lemma CountAllowed(f: Facts, n: int)
    requires IsCount(f, n)
    ensures IsAllowed(f, Str(Abs(n)))
  {
    assert CountForm(Str(Abs(n)), n);
  }

  lemma SmallAllowed(f: Facts)
    ensures IsAllowed(f, "100") && IsAllowed(f, ReturnDigit(f.returnType))
  {
    assert Str(10) == Str(1) + "0" && Str(100) == Str(10) + "0" == "100";
    assert SmallForm("100", 100) && SmallForm("1", 1) && SmallForm("3", 3);
  }

  lemma AllowedConcat(f: Facts, a: seq<string>, b: seq<string>)
    ensures AllAllowed(f, a + b) <==> AllAllowed(f, a) && AllAllowed(f, b)
  {
    assert forall t :: t in a + b <==> t in a || t in b;
  }

  lemma AllowedPair(f: Facts, s: string, t: string)
    requires IsAllowed(f, s) && IsAllowed(f, t)
    ensures AllAllowed(f, [s, t])
  {
  }

  lemma {:induction false} BlockersAllowed(f: Facts, bs: seq<Blocker>)
    requires forall i :: 0 <= i < |bs| ==> IsMoney(f, bs[i].paiseImpact)
    ensures AllAllowed(f, BlockerNumbers(bs)) <==> forall i :: 0 <= i < |bs| ==> Accepts(f, bs[i].description)
  {
    if bs != [] {
      var rest := bs[1..];
      BlockersAllowed(f, rest);
      BlockerAllowed(f, bs[0], BlockerNumbers(rest));
      assert (forall i :: 0 <= i < |bs| ==> Accepts(f, bs[i].description)) <==>
        Accepts(f, bs[0].description) && forall i :: 0 <= i < |rest| ==> Accepts(f, rest[i].description) by {
        assert forall i :: 0 < i < |bs| ==> bs[i] == rest[i - 1];
      }
    }
  }

  lemma BlockerAllowed(f: Facts, b: Blocker, rest: seq<string>)
    requires IsMoney(f, b.paiseImpact)
    ensures AllAllowed(f, Tokens(b.description) + [Str(RupeesOf(b.paiseImpact))] + rest)
      <==> Accepts(f, b.description) && AllAllowed(f, rest)
  {
    var own, impact := Tokens(b.description), [Str(RupeesOf(b.paiseImpact))];
    MoneyAllowed(f, b.paiseImpact);
    AllowedConcat(f, own + impact, rest);
    AllowedConcat(f, own, impact);
  }

  lemma AttentionPasses(f: Facts, out: Output)
    requires States(f, out)
    ensures Accepts(f, out.attention) <==> forall i :: 0 <= i < |Shown(f)| ==> Accepts(f, Shown(f)[i].description)
  {
    assert forall i :: 0 <= i < |Shown(f)| ==> Shown(f)[i] == f.blockers[i];
    BlockersAllowed(f, Shown(f));
  }

  lemma HealthPasses(f: Facts, out: Output)
    requires States(f, out)
    ensures Accepts(f, out.health) <==> Accepts(f, PeriodLabel(f.period))
  {
    var a, b, c := Str(RupeesOf(f.sales)), Str(RupeesOf(f.purchases)), Str(RupeesOf(f.margin));
    MoneyAllowed(f, f.sales);
    MoneyAllowed(f, f.purchases);
    MoneyAllowed(f, f.margin);
    ThreeMore(f, Tokens(PeriodLabel(f.period)), a, b, c);
  }

  lemma ThreeMore(f: Facts, own: seq<string>, a: string, b: string, c: string)
    requires IsAllowed(f, a) && IsAllowed(f, b) && IsAllowed(f, c)
    ensures AllAllowed(f, own + [a, b, c]) <==> AllAllowed(f, own)
  {
    AllowedPair(f, a, b);
    AllowedPair(f, c, c);
    AllowedConcat(f, [a, b], [c]);
    assert [a, b] + [c] == [a, b, c];
    AllowedConcat(f, own, [a, b, c]);
  }

  lemma FourAndTwo(f: Facts, a: string, b: string, c: string, d: string, x: string, y: string)
    requires IsAllowed(f, a) && IsAllowed(f, b) && IsAllowed(f, c) && IsAllowed(f, d)
    requires IsAllowed(f, x) && IsAllowed(f, y)
    ensures AllAllowed(f, [a, b, c, d] + [x, y])
  {
    AllowedPair(f, a, b);
    AllowedPair(f, c, d);
    AllowedPair(f, x, y);
    AllowedConcat(f, [a, b], [c, d]);
    AllowedConcat(f, [a, b] + [c, d], [x, y]);
    assert [a, b] + [c, d] == [a, b, c, d];
  }

  lemma TaxPasses(f: Facts, out: Output)
    requires States(f, out)
    ensures Accepts(f, out.taxPosition)
  {
    MoneyAllowed(f, f.taxPaid);
    MoneyAllowed(f, f.taxDue);
    CountAllowed(f, f.readinessScore);
    CountAllowed(f, f.daysToDue);
    SmallAllowed(f);
    var days, digit := Str(Abs(f.daysToDue)), ReturnDigit(f.returnType);
    FourAndTwo(f, Str(RupeesOf(f.taxPaid)), Str(RupeesOf(f.taxDue)), Str(Abs(f.readinessScore)), "100",
               if f.daysToDue >= 0 then days else digit, if f.daysToDue >= 0 then digit else days);
  }

  lemma AskPasses(f: Facts, out: Output)
    requires States(f, out)
    ensures Accepts(f, out.askYourCa)
  {
    if f.supplierDefaultCount > 0 {
      CountAllowed(f, f.supplierDefaultCount);
      MoneyAllowed(f, f.itcSupplierDefault);
      AllowedPair(f, Str(f.supplierDefaultCount), Str(RupeesOf(f.itcSupplierDefault)));
    }
  }

  /** For every fact sheet and every language, the mock narration passes the validator exactly when
      the period label and the descriptions of the printed blockers pass on their own. */
  lemma MockPassesExactly(f: Facts, l: Language)
    ensures AcceptsAll(f, ToBlocks(MockOutput(f, l))) <==>
      Accepts(f, PeriodLabel(f.period)) &&
      forall i :: 0 <= i < |Shown(f)| ==> Accepts(f, Shown(f)[i].description)
  {
    var out := MockOutput(f, l);
    MockStates(f, l);
    FourBlocks(f, out);
    HealthPasses(f, out);
    TaxPasses(f, out);
    AskPasses(f, out);
    AttentionPasses(f, out);
  }

  lemma FourBlocks(f: Facts, out: Output)
    ensures AcceptsAll(f, ToBlocks(out)) <==>
      Accepts(f, out.health) && Accepts(f, out.taxPosition) && Accepts(f, out.attention) && Accepts(f, out.askYourCa)
  {
    var blocks := ToBlocks(out);
    assert blocks[0].text == out.health && blocks[1].text == out.taxPosition;
    assert blocks[2].text == out.attention && blocks[3].text == out.askYourCa;
  }

  /** A well-formed period's label is always honest: its year is an allowed form. */
  lemma WellFormedLabelAccepted(f: Facts)
    requires WellFormed(f.period)
    ensures Accepts(f, PeriodLabel(f.period))
  {
    var month, year := MonthName(Val(f.period[4..])), f.period[..4];
    AfterWords(month + " ", year);
    YearAccepted(f, year);
  }

  lemma YearAccepted(f: Facts, year: string)
    requires IsNumeral(year) && f.period != "" && year == Year(f)
    ensures Accepts(f, year)
  {
    RemoveAbsent(year, ',');
    TokensOfRunAlone(year);
  }

  /** The repository's claim: on a well-formed period the guard can only fire on a blocker description. */
  lemma MockNeverHallucinates(f: Facts, l: Language)
    requires WellFormed(f.period)
    ensures AcceptsAll(f, ToBlocks(MockOutput(f, l))) <==>
      forall i :: 0 <= i < |Shown(f)| ==> Accepts(f, Shown(f)[i].description)
  {
    MockPassesExactly(f, l);
    WellFormedLabelAccepted(f);
  }

  // ----- the words that vary -----

  /** A year and a month number read as the month's name and the year; anything else is shown as it is. */
  lemma LabelReads(year: string, m: nat, other: string)
    requires |year| == 4 && AllDigits(year) && 1 <= m <= 12
    requires !(|other| == 6 && AllDigits(other) && 1 <= Val(other[4..]) <= 12)
    ensures PeriodLabel(year + Pad2(m)) ==
      ["January", "February", "March", "April", "May", "June", "July", "August", "September", "October", "November",
       "December"][m - 1] + " " + year
    ensures PeriodLabel(other) == other
  {
    var p := year + Pad2(m);
    assert p[..4] == year && p[4..] == Pad2(m);
  }

  /** Who has to act is named in the bullet. */
  lemma OwnersAreNamed()
    ensures Bullet(Blocker("k", Ca, "X", 0)) == "\U{2022} X \U{2014} \U{20B9}0, your CA to act."
    ensures Bullet(Blocker("k", Client, "X", 0)) == "\U{2022} X \U{2014} \U{20B9}0, you to act."
  {
    assert Str(RupeesOf(0)) == "0" && Group("0") == "0";
    assert Rupees(0) == [RUPEE] + "" + "0" == "\U{20B9}0";
  }
}
