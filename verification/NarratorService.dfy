/** Narrate, validate, retry once, persist; and the render-time check on what was persisted. */
module NarratorService {
  import opened Wrappers
  import opened Periods
  import opened Validator
  import opened MockNarrator

  // ----- persisted JSON -----

  /** The keys of the persisted objects, named after their JSON spelling. */
  datatype Key =
    | PeriodKey | ReturnTypeKey | FirmNameKey | ClientNameKey | SalesPaiseKey | PurchasesPaiseKey
    | MarginPaiseKey | TaxPaidPaiseKey | TaxDuePaiseKey | ItcKey | ReadinessScoreKey | DaysToDueKey
    | TopBlockersKey | RulePackVersionKey | MatchedPaiseKey | ProbablePaiseKey | SupplierDefaultPaiseKey
    | MissingEntryPaiseKey | SupplierDefaultCountKey | KindKey | OwnerKey | DescriptionKey | PaiseImpactKey
    | Page1HealthKey | Page1TaxPositionKey | Page2AttentionKey | Page2AskYourCaKey

  datatype Json = Null | Int(i: int) | Text(s: string) | Arr(items: seq<Json>) | Obj(fields: map<Key, Json>)

  function OwnerText(o: Owner): string { if o == Ca then "ca" else "client" }

  function ReturnText(r: ReturnType): string { if r == GSTR1 then "GSTR1" else "GSTR3B" }

  function BlockerToDict(b: Blocker): Json {
    Obj(map[KindKey := Text(b.kind), OwnerKey := Text(OwnerText(b.owner)),
            DescriptionKey := Text(b.description), PaiseImpactKey := Int(b.paiseImpact)])
  }

  function ItcToDict(f: Facts): Json {
    Obj(map[MatchedPaiseKey := Int(f.itcMatched), ProbablePaiseKey := Int(f.itcProbable),
            SupplierDefaultPaiseKey := Int(f.itcSupplierDefault),
            MissingEntryPaiseKey := Int(f.itcMissingEntry),
            SupplierDefaultCountKey := Int(f.supplierDefaultCount)])
  }

  function BlockersToList(bs: seq<Blocker>): Json {
    Arr(seq(|bs|, i requires 0 <= i < |bs| => BlockerToDict(bs[i])))
  }

  function FactsToDict(f: Facts): Json {
    Obj(map[PeriodKey := Text(f.period), ReturnTypeKey := Text(ReturnText(f.returnType)),
            FirmNameKey := Text(f.firmName), ClientNameKey := Text(f.clientName),
            SalesPaiseKey := Int(f.sales), PurchasesPaiseKey := Int(f.purchases),
            MarginPaiseKey := Int(f.margin), TaxPaidPaiseKey := Int(f.taxPaid),
            TaxDuePaiseKey := Int(f.taxDue), ItcKey := ItcToDict(f),
            ReadinessScoreKey := Int(f.readinessScore), DaysToDueKey := Int(f.daysToDue),
            TopBlockersKey := BlockersToList(f.blockers),
            RulePackVersionKey := Text(f.rulePackVersion)])
  }

  /** `d.get(key)`: null when the key is missing. */
  function Get(fields: map<Key, Json>, key: Key): Json {
    if key in fields then fields[key] else Null
  }

  /** `int(d.get(key) or 0)`. */
  function IntAt(fields: map<Key, Json>, key: Key): int {
    match Get(fields, key) case Int(i) => i case _ => 0
  }

  /** `d.get(key, default)` for text. */
  function TextAt(fields: map<Key, Json>, key: Key, default: string): string {
    match Get(fields, key) case Text(s) => s case _ => default
  }

  /** `d.get(key) or {}`. */
  function FieldsOf(j: Json): map<Key, Json> { match j case Obj(m) => m case _ => map[] }

  function ItemsOf(j: Json): seq<Json> { match j case Arr(xs) => xs case _ => [] }

  function BlockerFromDict(j: Json): Blocker {
    var m := FieldsOf(j);
    Blocker(TextAt(m, KindKey, ""), if TextAt(m, OwnerKey, "ca") == "ca" then Ca else Client,
            TextAt(m, DescriptionKey, ""), IntAt(m, PaiseImpactKey))
  }

  function BlockersFromList(j: Json): seq<Blocker> {
    var bs := ItemsOf(j);
    seq(|bs|, i requires 0 <= i < |bs| => BlockerFromDict(bs[i]))
  }

  function FactsFromPersisted(j: Json): Facts {
    var m := FieldsOf(j);
    var itc := FieldsOf(Get(m, ItcKey));
    Facts(TextAt(m, PeriodKey, ""), if TextAt(m, ReturnTypeKey, "GSTR1") == "GSTR1" then GSTR1 else GSTR3B,
          TextAt(m, FirmNameKey, ""), TextAt(m, ClientNameKey, ""),
          IntAt(m, SalesPaiseKey), IntAt(m, PurchasesPaiseKey), IntAt(m, MarginPaiseKey),
          IntAt(m, TaxPaidPaiseKey), IntAt(m, TaxDuePaiseKey),
          IntAt(itc, MatchedPaiseKey), IntAt(itc, ProbablePaiseKey), IntAt(itc, SupplierDefaultPaiseKey),
          IntAt(itc, MissingEntryPaiseKey), IntAt(itc, SupplierDefaultCountKey),
          IntAt(m, ReadinessScoreKey), IntAt(m, DaysToDueKey),
          BlockersFromList(Get(m, TopBlockersKey)),
          TextAt(m, RulePackVersionKey, ""))
  }

  lemma BlockerRoundTrip(b: Blocker)
    ensures BlockerFromDict(BlockerToDict(b)) == b
  {
    assert OwnerText(Client) != "ca" by { assert |OwnerText(Client)| != |"ca"|; }
  }

  lemma ItcRoundTrip(f: Facts)
    ensures var itc := FieldsOf(ItcToDict(f));
      IntAt(itc, MatchedPaiseKey) == f.itcMatched && IntAt(itc, ProbablePaiseKey) == f.itcProbable &&
      IntAt(itc, SupplierDefaultPaiseKey) == f.itcSupplierDefault &&
      IntAt(itc, MissingEntryPaiseKey) == f.itcMissingEntry &&
      IntAt(itc, SupplierDefaultCountKey) == f.supplierDefaultCount
  {
  }

  /** Persisting and reloading a fact sheet changes nothing, zeros and empty strings included. */
  lemma FactsRoundTrip(f: Facts)
    ensures FactsFromPersisted(FactsToDict(f)) == f
  {
    ItcRoundTrip(f);
    BlockersRoundTrip(f.blockers);
    TextFields(f);
    MoneyFields(f);
  }

  lemma BlockersRoundTrip(bs: seq<Blocker>)
    ensures BlockersFromList(BlockersToList(bs)) == bs
  {
    forall i | 0 <= i < |bs|
      ensures BlockersFromList(BlockersToList(bs))[i] == bs[i]
    {
      BlockerRoundTrip(bs[i]);
    }
  }

  lemma TextFields(f: Facts)
    ensures var m := FieldsOf(FactsToDict(f));
      TextAt(m, PeriodKey, "") == f.period && TextAt(m, ReturnTypeKey, "GSTR1") == ReturnText(f.returnType) &&
      TextAt(m, FirmNameKey, "") == f.firmName && TextAt(m, ClientNameKey, "") == f.clientName &&
      TextAt(m, RulePackVersionKey, "") == f.rulePackVersion
    ensures ReturnText(GSTR3B) != "GSTR1"
  {
    assert |ReturnText(GSTR3B)| != |"GSTR1"|;
  }

  lemma MoneyFields(f: Facts)
    ensures var m := FieldsOf(FactsToDict(f));
      IntAt(m, SalesPaiseKey) == f.sales && IntAt(m, PurchasesPaiseKey) == f.purchases &&
      IntAt(m, MarginPaiseKey) == f.margin && IntAt(m, TaxPaidPaiseKey) == f.taxPaid &&
      IntAt(m, TaxDuePaiseKey) == f.taxDue && IntAt(m, ReadinessScoreKey) == f.readinessScore &&
      IntAt(m, DaysToDueKey) == f.daysToDue &&
      Get(m, ItcKey) == ItcToDict(f) && Get(m, TopBlockersKey) == BlockersToList(f.blockers)
  {
  }

  function OutputToDict(out: Output): Json {
    Obj(map[Page1HealthKey := Text(out.health), Page1TaxPositionKey := Text(out.taxPosition),
            Page2AttentionKey := Text(out.attention), Page2AskYourCaKey := Text(out.askYourCa)])
  }

  function BlocksFromPersisted(j: Json): seq<Block> {
    var m := FieldsOf(j);
    [Block("page1_health", TextAt(m, Page1HealthKey, "")),
     Block("page1_tax_position", TextAt(m, Page1TaxPositionKey, "")),
     Block("page2_attention", TextAt(m, Page2AttentionKey, "")),
     Block("page2_ask_your_ca", TextAt(m, Page2AskYourCaKey, ""))]
  }

  lemma BlocksRoundTrip(out: Output)
    ensures BlocksFromPersisted(OutputToDict(out)) == ToBlocks(out)
  {
  }

  // ----- one request -----

  /** What an adapter call does: answer, or raise. */
  datatype Reply = Answer(out: Output) | Raised

  /** One call of `narrate_for_period`: the feature flag, what `build_facts` finds, and how the
      adapter would answer the plain and the strict prompt. */
  datatype Request = Request(
    enabled: bool, facts: Option<Facts>, plain: Reply, strict: Reply,
    returnType: ReturnType, period: string, language: Language)

  datatype Outcome = Done(out: Output) | Disabled | FactsUnavailable | AdapterFailed | Hallucinated

  datatype Run = Run(returnType: ReturnType, period: string, language: Language,
                     provider: string, model: string, facts: Json, output: Json)

  ghost function OutcomeOf(q: Request): Outcome {
    if !q.enabled then Disabled
    else if q.facts.None? then FactsUnavailable
    else if q.plain.Raised? then AdapterFailed
    else if AcceptsAll(q.facts.value, ToBlocks(q.plain.out)) then Done(q.plain.out)
    else if q.strict.Raised? then AdapterFailed
    else if AcceptsAll(q.facts.value, ToBlocks(q.strict.out)) then Done(q.strict.out)
    else Hallucinated
  }

  ghost function CallsOf(q: Request): nat {
    if !q.enabled || q.facts.None? then 0
    else if q.plain.Raised? || AcceptsAll(q.facts.value, ToBlocks(q.plain.out)) then 1
    else 2
  }

  function RunOf(q: Request, f: Facts, out: Output): Run {
    Run(q.returnType, q.period, q.language, out.provider, out.model, FactsToDict(f), OutputToDict(out))
  }

  /** The rows one request adds. */
  ghost function RowsOf(q: Request): seq<Run> {
    if OutcomeOf(q).Done? then [RunOf(q, q.facts.value, OutcomeOf(q).out)] else []
  }

  // ----- rendering -----

  datatype Rendering = Rendered | Unavailable | Refused

  ghost function RenderOf(runs: seq<Run>, id: nat): Rendering {
    if id >= |runs| then Unavailable
    else if AcceptsAll(FactsFromPersisted(runs[id].facts), BlocksFromPersisted(runs[id].output)) then Rendered
    else Refused
  }

  ghost predicate Honest(runs: seq<Run>) {
    forall id :: 0 <= id < |runs| ==> RenderOf(runs, id) == Rendered
  }

  ghost predicate RendersAlone(row: Run) {
    AcceptsAll(FactsFromPersisted(row.facts), BlocksFromPersisted(row.output))
  }

  /** Only validated output is ever persisted. */
  lemma DoneIsAccepted(q: Request)
    requires OutcomeOf(q).Done?
    ensures q.facts.Some? && AcceptsAll(q.facts.value, ToBlocks(OutcomeOf(q).out))
  {
  }

  /** A row holding validated output passes the check at render time. */
  lemma RowRenders(row: Run, f: Facts, out: Output)
    requires row.facts == FactsToDict(f) && row.output == OutputToDict(out)
    requires AcceptsAll(f, ToBlocks(out))
    ensures RendersAlone(row)
  {
    FactsRoundTrip(f);
    BlocksRoundTrip(out);
  }

  lemma RowsRender(runs: seq<Run>, q: Request)
    requires Honest(runs)
    ensures Honest(runs + RowsOf(q))
  {
    if OutcomeOf(q).Done? {
      DoneIsAccepted(q);
      var row := RunOf(q, q.facts.value, OutcomeOf(q).out);
      RowRenders(row, q.facts.value, OutcomeOf(q).out);
      HonestAppend(runs, row);
    } else {
      assert runs + RowsOf(q) == runs;
    }
  }

  lemma HonestAppend(runs: seq<Run>, row: Run)
    requires Honest(runs) && RendersAlone(row)
    ensures Honest(runs + [row])
  {
    forall id | 0 <= id < |runs|
      ensures RenderOf(runs + [row], id) == Rendered
    {
      assert RenderOf(runs, id) == Rendered;
    }
  }

  /** The table after a sequence of requests. */
  ghost function Table(requests: seq<Request>): seq<Run> {
    if requests == [] then []
    else Table(requests[..|requests| - 1]) + RowsOf(requests[|requests| - 1])
  }

  /** No persisted narration is ever refused by the renderer, after any history of requests. */
  lemma {:induction false} EveryPersistedNarrationRenders(requests: seq<Request>, id: nat)
    ensures RenderOf(Table(requests), id) != Refused
    ensures Honest(Table(requests))
  {
    if requests != [] {
      EveryPersistedNarrationRenders(requests[..|requests| - 1], id);
      RowsRender(Table(requests[..|requests| - 1]), requests[|requests| - 1]);
    }
  }

  /** With the mock adapter the retry is idle: one call settles it, and it fails exactly when the
      period label or a printed blocker description is itself dishonest. */
  lemma MockRequestOutcome(q: Request)
    requires q.enabled && q.facts.Some?
    requires q.plain == q.strict == Answer(MockOutput(q.facts.value, q.language))
    ensures var f := q.facts.value;
      var clean := Accepts(f, PeriodLabel(f.period)) &&
                   forall i :: 0 <= i < |Shown(f)| ==> Accepts(f, Shown(f)[i].description);
      OutcomeOf(q) == (if clean then Done(MockOutput(f, q.language)) else Hallucinated) &&
      CallsOf(q) == (if clean then 1 else 2)
  {
    MockPassesExactly(q.facts.value, q.language);
  }

  /** What each pair of adapter replies leads to, over every fact sheet: the plain answer if it is honest, else the
      strict one if that is; an adapter that fails ends the request; two dishonest answers are reported. */
  lemma OutcomeExactly(q: Request)
    requires q.enabled && q.facts.Some?
    ensures var f := q.facts.value;
      var plainHonest := q.plain.Answer? && AcceptsAll(f, ToBlocks(q.plain.out));
      var strictHonest := q.strict.Answer? && AcceptsAll(f, ToBlocks(q.strict.out));
      (OutcomeOf(q).Done? <==> plainHonest || (q.plain.Answer? && strictHonest)) &&
      (OutcomeOf(q).Done? ==> OutcomeOf(q).out == if plainHonest then q.plain.out else q.strict.out) &&
      (OutcomeOf(q) == AdapterFailed <==> q.plain.Raised? || (!plainHonest && q.strict.Raised?)) &&
      (OutcomeOf(q) == Hallucinated <==> q.plain.Answer? && q.strict.Answer? && !plainHonest && !strictHonest) &&
      CallsOf(q) == (if q.plain.Answer? && !plainHonest then 2 else 1)
  {
  }

  /** A disabled narrator, and a missing fact sheet, end a request before any call. */
  lemma NoCallWithoutFacts(q: Request)
    ensures OutcomeOf(q) == Disabled <==> !q.enabled
    ensures OutcomeOf(q) == FactsUnavailable <==> q.enabled && q.facts.None?
    ensures CallsOf(q) == 0 <==> !q.enabled || q.facts.None?
  {
  }

  /** The persisted row carries the request's return, period and language, the output's provider and model, and
      reloads to the request's facts and the output's four blocks under their names. */
  lemma RowIs(q: Request)
    requires OutcomeOf(q).Done?
    ensures |RowsOf(q)| == 1
    ensures var row, out := RowsOf(q)[0], OutcomeOf(q).out;
      row.returnType == q.returnType && row.period == q.period && row.language == q.language &&
      row.provider == out.provider && row.model == out.model &&
      FactsFromPersisted(row.facts) == q.facts.value &&
      BlocksFromPersisted(row.output) ==
        [Block("page1_health", out.health), Block("page1_tax_position", out.taxPosition),
         Block("page2_attention", out.attention), Block("page2_ask_your_ca", out.askYourCa)]
  {
    FactsRoundTrip(q.facts.value);
    BlocksRoundTrip(OutcomeOf(q).out);
  }

  // ----- the service -----

  datatype Audit = NarrationGenerated(runId: nat, period: string, returnType: ReturnType, language: Language)

  class Service {
    var runs: seq<Run>
    var audit: seq<Audit>

    constructor ()
      ensures runs == [] && audit == []
    {
      runs := [];
      audit := [];
    }

    /** Insert one narration_run row and one audit row. */
    method PersistRun(q: Request, f: Facts, out: Output) returns (id: nat)
      modifies this
      ensures id == |old(runs)| && runs == old(runs) + [RunOf(q, f, out)]
      ensures audit == old(audit) + [NarrationGenerated(id, q.period, q.returnType, q.language)]
    {
      id := |runs|;
      runs := runs + [RunOf(q, f, out)];
      audit := audit + [NarrationGenerated(id, q.period, q.returnType, q.language)];
    }

    method NarrateForPeriod(q: Request) returns (outcome: Outcome, calls: nat)
      modifies this
      ensures outcome == OutcomeOf(q)
      ensures calls == CallsOf(q) && calls <= 2
      ensures runs == old(runs) + RowsOf(q)
      ensures audit == old(audit) + (if outcome.Done? then
        [NarrationGenerated(|old(runs)|, q.period, q.returnType, q.language)] else [])
      ensures old(Honest(runs)) ==> Honest(runs)
    {
      RowsAlwaysRender(runs, q);
      calls := 0;
      if !q.enabled {
        return Disabled, calls;
      }
      if q.facts.None? {
        return FactsUnavailable, calls;
      }
      var f := q.facts.value;
      calls := calls + 1;
      if q.plain.Raised? {
        return AdapterFailed, calls;
      }
      var out := q.plain.out;
      var verdict := ValidateOutputBlocks(f, ToBlocks(out));
      if verdict.NumberHallucination? {
        calls := calls + 1;
        if q.strict.Raised? {
          return AdapterFailed, calls;
        }
        out := q.strict.out;
        verdict := ValidateOutputBlocks(f, ToBlocks(out));
        if verdict.NumberHallucination? {
          return Hallucinated, calls;
        }
      }
      var _ := PersistRun(q, f, out);
      outcome := Done(out);
    }

    /** `render_narration_pdf` up to and including the honesty check. */
    method RenderNarration(id: nat) returns (r: Rendering)
      ensures r == RenderOf(runs, id)
      ensures Honest(runs) ==> r != Refused
    {
      if id >= |runs| {
        return Unavailable;
      }
      var f := FactsFromPersisted(runs[id].facts);
      var verdict := ValidateOutputBlocks(f, BlocksFromPersisted(runs[id].output));
      r := if verdict.Accepted? then Rendered else Refused;
    }
  }

  lemma RowsAlwaysRender(runs: seq<Run>, q: Request)
    ensures Honest(runs) ==> Honest(runs + RowsOf(q))
  {
    if Honest(runs) {
      RowsRender(runs, q);
    }
  }
}
