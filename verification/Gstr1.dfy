/** The GSTR-1 generator (filings/gstr1_generator.py): recovering the tax rate, rendering money, and
    grouping invoices by counterparty. */
module Gstr1 {
  import opened Wrappers
  import opened Periods
  import opened Digits
  import opened Canonical
  import opened Money

  // ----- the tax rate -----

  /** The derived rate, in hundredths of a percent. */
  function DeriveRate(taxable: int, cgst: int, sgst: int, igst: int): int {
    if taxable <= 0 then 0 else HalfUpDiv((cgst + sgst + igst) * 10000, taxable)
  }

  /** Tax on a taxable value at a slab (in hundredths of a percent), whole or one of two equal heads. */
  function WholeTax(taxable: int, slab: nat): int { HalfUpDiv(taxable * slab, 10000) }

  function HalfTax(taxable: int, slab: nat): int { HalfUpDiv(taxable * slab, 20000) }

  /** A multiple of `t` closer to zero than `t` is zero. */
  lemma SmallMultiple(t: int, k: int, bound: int)
    requires t > 0 && Abs(2 * (t * k)) <= bound < 2 * t
    ensures k == 0
  {
    assert k > 0 ==> t * k >= t;
    assert k < 0 ==> t * k <= -t;
  }

  /** If the total tax is within `slack` of the slab (scaled by 20000), so is the rate; and past that
      slack the slab comes back exactly. */
  lemma RateWithin(taxable: int, total: int, slab: nat, slack: nat)
    requires taxable > 0 && Abs(20000 * total - 2 * (taxable * slab)) <= slack
    ensures var r := HalfUpDiv(total * 10000, taxable);
      Abs(2 * (taxable * (r - slab))) <= taxable + slack && (taxable > slack ==> r == slab)
  {
    var r := HalfUpDiv(total * 10000, taxable);
    HalfUpDivIsNearest(total * 10000, taxable);
    Distribute(taxable, r, slab);
    if taxable > slack {
      SmallMultiple(taxable, r - slab, taxable + slack);
    }
  }

  /** Inter-state: the slab is recovered above 10,000 paise, and below that it is off by no more than the
      stated bound. */
  lemma SingleHeadRecovery(taxable: int, slab: nat)
    requires taxable > 0
    ensures var r := DeriveRate(taxable, 0, 0, WholeTax(taxable, slab));
      Abs(2 * (taxable * (r - slab))) <= taxable + 10000 && (taxable > 10000 ==> r == slab)
  {
    HalfUpDivIsNearest(taxable * slab, 10000);
    RateWithin(taxable, WholeTax(taxable, slab), slab, 10000);
  }

  /** Intra-state: CGST and SGST are each rounded, and the slab is recovered above 20,000 paise. */
  lemma TwoHeadRecovery(taxable: int, slab: nat)
    requires taxable > 0
    ensures var h := HalfTax(taxable, slab);
      var r := DeriveRate(taxable, h, h, 0);
      Abs(2 * (taxable * (r - slab))) <= taxable + 20000 && (taxable > 20000 ==> r == slab)
  {
    HalfUpDivIsNearest(taxable * slab, 20000);
    RateWithin(taxable, 2 * HalfTax(taxable, slab), slab, 20000);
  }

  lemma HalfUpDivMonotone(n: nat, m: nat, d: nat)
    requires d > 0 && n <= m
    ensures HalfUpDiv(n, d) <= HalfUpDiv(m, d)
  {
    var x, y, e := 2 * n + d, 2 * m + d, 2 * d;
    QuotientOrder(e, x / e, x % e, y / e, y % e);
  }

  /** The tax of a slab, at `unit` hundredths of a percent to the whole. */
  function Tax(taxable: nat, slab: nat, unit: nat): int
    requires unit > 0
  {
    HalfUpDiv(taxable * slab, unit)
  }

  lemma TaxMonotone(taxable: nat, slab: nat, unit: nat)
    requires unit > 0
    ensures Tax(taxable, slab, unit) <= Tax(taxable, slab + 1, unit)
  {
    assert taxable * (slab + 1) == taxable * slab + taxable;
    HalfUpDivMonotone(taxable * slab, taxable * (slab + 1), unit);
  }

  /** If no two neighbouring slabs below `n` share a tax, the tax rises by a paisa a slab. */
  lemma {:induction false} TaxRises(taxable: nat, n: nat, unit: nat)
    requires unit > 0
    requires forall s: nat :: s < n ==> Tax(taxable, s, unit) != Tax(taxable, s + 1, unit)
    ensures Tax(taxable, n, unit) >= n
  {
    if n > 0 {
      TaxRises(taxable, n - 1, unit);
      TaxMonotone(taxable, n - 1, unit);
    } else {
      assert taxable * 0 == 0;
    }
  }

  lemma HalfUpDivExact(q: nat, d: nat)
    requires d > 0
    ensures HalfUpDiv(d * q, d) == q
  {
    HalfUpDivIsNearest(d * q, d);
    Distribute(d, HalfUpDiv(d * q, d), q);
    SmallMultiple(d, HalfUpDiv(d * q, d) - q, d);
  }

  /** Below `unit` paise two neighbouring slabs share a rounded tax. */
  lemma NeighboursShare(taxable: nat, unit: nat) returns (slab: nat)
    requires taxable < unit
    ensures Tax(taxable, slab, unit) == Tax(taxable, slab + 1, unit)
  {
    if forall s: nat :: s < unit ==> Tax(taxable, s, unit) != Tax(taxable, s + 1, unit) {
      TaxRises(taxable, unit, unit);
      assert taxable * unit == unit * taxable;
      HalfUpDivExact(taxable, unit);
      assert false;
    }
    slab :| slab < unit && Tax(taxable, slab, unit) == Tax(taxable, slab + 1, unit);
  }

  predicate RecoversSingle(taxable: int, slab: nat) {
    DeriveRate(taxable, 0, 0, WholeTax(taxable, slab)) == slab
  }

  predicate RecoversDouble(taxable: int, slab: nat) {
    DeriveRate(taxable, HalfTax(taxable, slab), HalfTax(taxable, slab), 0) == slab
  }

  /** A derived rate is `slab` exactly when the tax is within half a hundredth of a percent of it. */
  lemma RateExactly(taxable: int, tax: nat, slab: nat)
    requires taxable > 0
    ensures HalfUpDiv(tax * 10000, taxable) == slab <==> -taxable <= 2 * (10000 * tax - taxable * slab) < taxable
  {
    HalfUpDivAtLeast(tax * 10000, taxable, slab);
    HalfUpDivAtLeast(tax * 10000, taxable, slab + 1);
    assert (2 * slab - 1) * taxable == 2 * (taxable * slab) - taxable;
    assert (2 * (slab + 1) - 1) * taxable == 2 * (taxable * slab) + taxable;
  }

  /** One slab on one inter-state invoice. */
  lemma SingleSlabExactly(taxable: int, slab: nat)
    requires taxable > 0
    ensures RecoversSingle(taxable, slab) <==>
      -taxable <= 2 * (10000 * WholeTax(taxable, slab) - taxable * slab) < taxable
  {
    RateExactly(taxable, WholeTax(taxable, slab), slab);
  }

  /** One slab on one intra-state invoice, whose two heads are each rounded. */
  lemma DoubleSlabExactly(taxable: int, slab: nat)
    requires taxable > 0
    ensures RecoversDouble(taxable, slab) <==>
      -taxable <= 2 * (20000 * HalfTax(taxable, slab) - taxable * slab) < taxable
  {
    RateExactly(taxable, 2 * HalfTax(taxable, slab), slab);
  }

  /** The 0.25% slab is lost on an invoice of 98 rupees, in either form. */
  lemma QuarterSlabLost()
    ensures !RecoversSingle(9800, 25) && !RecoversDouble(9800, 25)
  {
    SingleSlabExactly(9800, 25);
    DoubleSlabExactly(9800, 25);
  }

  /** Inter-state: every slab is recovered exactly from 10,000 paise on. */
  lemma SingleHeadExactly(taxable: int)
    requires taxable > 0
    ensures (forall slab: nat :: RecoversSingle(taxable, slab)) <==> taxable >= 10000
  {
    if taxable < 10000 {
      var slab := NeighboursShare(taxable, 10000);
      assert WholeTax(taxable, slab) == WholeTax(taxable, slab + 1);
      assert !RecoversSingle(taxable, slab) || !RecoversSingle(taxable, slab + 1);
    }
    forall slab: nat | taxable >= 10000
      ensures RecoversSingle(taxable, slab)
    {
      SingleHeadRecovery(taxable, slab);
      if taxable == 10000 {
        HalfUpDivExact(slab, 10000);
      }
    }
  }

  /** Intra-state: from 20,000 paise on. */
  lemma TwoHeadExactly(taxable: int)
    requires taxable > 0
    ensures (forall slab: nat :: RecoversDouble(taxable, slab)) <==> taxable >= 20000
  {
    if taxable < 20000 {
      var slab := NeighboursShare(taxable, 20000);
      assert HalfTax(taxable, slab) == HalfTax(taxable, slab + 1);
      assert !RecoversDouble(taxable, slab) || !RecoversDouble(taxable, slab + 1);
    }
    forall slab: nat | taxable >= 20000
      ensures RecoversDouble(taxable, slab)
    {
      TwoHeadRecovery(taxable, slab);
      if taxable == 20000 {
        HalfUpDivExact(slab, 20000);
      }
    }
  }

  // ----- money -----

  /** Paise as a two-decimal rupee amount; the quantization raises past 28 digits. */
  function PaiseToRupees(p: int): Outcome<Amount> {
    if Abs(p) < LIMIT then Got(Decimal(p, 2)) else InvalidOperation
  }

  /** Rendering paise as rupees and ingesting them again is the identity on every amount that can be rendered;
      negatives are refused. */
  lemma RupeesRoundTrip(p: int)
    ensures PaiseToRupees(p).Got? <==> Abs(p) < LIMIT
    ensures PaiseToRupees(p).Got? ==> RupeesToPaise(PaiseToRupees(p).value) == if p >= 0 then Got(p) else ValueError
  {
    if 0 <= p < LIMIT {
      assert Pow10(2) == 100;
      ToPrecisionIsNearest(p);
      HalfUpDivExact(p, 100);
    }
  }

  // ----- grouping -----

  /** One active sale; `ctin` is empty for a B2C row. */
  datatype Row = Row(number: string, date: Date, ctin: string,
                     taxable: int, cgst: int, sgst: int, igst: int, total: int)

  datatype Line = Line(inum: string, idt: string, val: int, pos: string,
                       txval: int, rate: int, camt: int, samt: int, iamt: int)

  datatype Group = Group(ctin: string, inv: seq<Line>)

  datatype Payload = Payload(b2b: seq<Group>, curGt: int)

  function IndianDate(t: Date): string
    requires Representable(t)
  {
    Pad2(t.d) + "-" + Pad2(t.m) + "-" + Pad2(t.y / 100) + Pad2(t.y % 100)
  }

  predicate Dated(rows: seq<Row>) { forall i :: 0 <= i < |rows| ==> Representable(rows[i].date) }

  function LineOf(r: Row): Line
    requires Representable(r.date) && |r.ctin| >= 2
  {
    Line(r.number, IndianDate(r.date), r.total, r.ctin[..2],
         r.taxable, DeriveRate(r.taxable, r.cgst, r.sgst, r.igst), r.cgst, r.sgst, r.igst)
  }

  /** The rows of one counterparty, in source order. */
  function Select(rows: seq<Row>, ctin: string): seq<Row> {
    if rows == [] then []
    else Select(rows[..|rows| - 1], ctin) + (if rows[|rows| - 1].ctin == ctin then [rows[|rows| - 1]] else [])
  }

  function B2b(rows: seq<Row>): seq<Row> {
    if rows == [] then []
    else B2b(rows[..|rows| - 1]) + (if rows[|rows| - 1].ctin != "" then [rows[|rows| - 1]] else [])
  }

  /** The money columns, on a row and on a line. */
  datatype Column = Value | Taxable | Cgst | Sgst | Igst

  function OfRow(r: Row, c: Column): int {
    match c case Value => r.total case Taxable => r.taxable case Cgst => r.cgst case Sgst => r.sgst case Igst => r.igst
  }

  function OfLine(l: Line, c: Column): int {
    match c case Value => l.val case Taxable => l.txval case Cgst => l.camt case Sgst => l.samt case Igst => l.iamt
  }

  function Sum(rows: seq<Row>, c: Column): int {
    if rows == [] then 0 else Sum(rows[..|rows| - 1], c) + OfRow(rows[|rows| - 1], c)
  }

  function LineSum(lines: seq<Line>, c: Column): int {
    if lines == [] then 0 else LineSum(lines[..|lines| - 1], c) + OfLine(lines[|lines| - 1], c)
  }

  function GroupSum(gs: seq<Group>, c: Column): int {
    if gs == [] then 0 else GroupSum(gs[..|gs| - 1], c) + LineSum(gs[|gs| - 1].inv, c)
  }

  /** A column over the rows with a counterparty, and over those without. */
  function Named(rows: seq<Row>, c: Column): int {
    if rows == [] then 0
    else Named(rows[..|rows| - 1], c) + if rows[|rows| - 1].ctin != "" then OfRow(rows[|rows| - 1], c) else 0
  }

  function Unnamed(rows: seq<Row>, c: Column): int {
    if rows == [] then 0
    else Unnamed(rows[..|rows| - 1], c) + if rows[|rows| - 1].ctin == "" then OfRow(rows[|rows| - 1], c) else 0
  }

  /** The counterparties that occur. */
  function Ctins(rows: seq<Row>): set<string> { set r | r in rows && r.ctin != "" :: r.ctin }

  lemma SelectSnoc(rows: seq<Row>, r: Row, ctin: string)
    ensures Select(rows + [r], ctin) == Select(rows, ctin) + (if r.ctin == ctin then [r] else [])
  {
    assert (rows + [r])[..|rows|] == rows;
  }

  lemma B2bSnoc(rows: seq<Row>, r: Row)
    ensures B2b(rows + [r]) == B2b(rows) + (if r.ctin != "" then [r] else [])
  {
    assert (rows + [r])[..|rows|] == rows;
  }

  lemma SumSnoc(rows: seq<Row>, r: Row, c: Column)
    ensures Sum(rows + [r], c) == Sum(rows, c) + OfRow(r, c)
  {
    assert (rows + [r])[..|rows|] == rows;
  }

  lemma CtinsSnoc(rows: seq<Row>, r: Row)
    ensures Ctins(rows + [r]) == Ctins(rows) + (if r.ctin != "" then {r.ctin} else {})
  {
    assert forall q :: q in rows + [r] <==> q in rows || q == r;
    if r.ctin != "" {
      assert r in rows + [r];
    }
  }

  lemma {:induction false} SelectAbsent(rows: seq<Row>, ctin: string)
    requires ctin != "" && ctin !in Ctins(rows)
    ensures Select(rows, ctin) == []
  {
    if rows != [] {
      var front, r := rows[..|rows| - 1], rows[|rows| - 1];
      assert rows == front + [r];
      CtinsSnoc(front, r);
      SelectAbsent(front, ctin);
    }
  }

  predicate Distinct(ctins: seq<string>) { forall i, j :: 0 <= i < j < |ctins| ==> ctins[i] != ctins[j] }

  function Elements(ctins: seq<string>): set<string> { set c | c in ctins }

  /** The insertion-ordered dictionary of row lists: its keys in order, and what they map to. */
  datatype Dict = Dict(order: seq<string>, lists: map<string, seq<Row>>)

  /** `by_ctin[ctin].append(r)` on a defaultdict. */
  function Append(d: Dict, r: Row): Dict {
    if r.ctin in d.lists then d.(lists := d.lists[r.ctin := d.lists[r.ctin] + [r]])
    else Dict(d.order + [r.ctin], d.lists[r.ctin := [r]])
  }

  ghost predicate Groups(d: Dict, rows: seq<Row>) {
    && Distinct(d.order) && Elements(d.order) == d.lists.Keys == Ctins(rows)
    && forall c :: c in d.lists ==> d.lists[c] == Select(rows, c)
  }

  lemma AppendNames(d: Dict, r: Row)
    requires Distinct(d.order) && Elements(d.order) == d.lists.Keys
    ensures var after := Append(d, r);
      Distinct(after.order) && Elements(after.order) == after.lists.Keys == Elements(d.order) + {r.ctin}
  {
    if r.ctin !in d.lists {
      assert Elements(d.order + [r.ctin]) == Elements(d.order) + {r.ctin};
      assert forall i :: 0 <= i < |d.order| ==> d.order[i] in Elements(d.order);
    }
  }

  lemma AppendKeeps(d: Dict, rows: seq<Row>, r: Row)
    requires Groups(d, rows)
    ensures Groups(if r.ctin != "" then Append(d, r) else d, rows + [r])
  {
    CtinsSnoc(rows, r);
    if r.ctin != "" {
      AppendNames(d, r);
      if r.ctin !in d.lists {
        SelectAbsent(rows, r.ctin);
      }
    }
    var after := if r.ctin != "" then Append(d, r) else d;
    forall c | c in after.lists
      ensures after.lists[c] == Select(rows + [r], c)
    {
      SelectSnoc(rows, r, c);
    }
  }

  // ----- ordering -----

  /** Lexicographic order on strings. */
  predicate Less(a: string, b: string) {
    b != [] && (a == [] || a[0] < b[0] || (a[0] == b[0] && Less(a[1..], b[1..])))
  }

  lemma {:induction false} LessTotal(a: string, b: string)
    ensures Less(a, b) || Less(b, a) || a == b
  {
    if a != [] && b != [] && a[0] == b[0] {
      LessTotal(a[1..], b[1..]);
      assert a == [a[0]] + a[1..] && b == [b[0]] + b[1..];
    }
  }

  lemma {:induction false} LessTransitive(a: string, b: string, c: string)
    requires Less(a, b) && Less(b, c)
    ensures Less(a, c)
  {
    if a != [] && b != [] && c != [] && a[0] == b[0] == c[0] {
      LessTransitive(a[1..], b[1..], c[1..]);
    }
  }

  predicate Increasing(gs: seq<Group>) { forall i, j :: 0 <= i < j < |gs| ==> Less(gs[i].ctin, gs[j].ctin) }

  function InsertGroup(gs: seq<Group>, g: Group): seq<Group> {
    if gs == [] || Less(g.ctin, gs[0].ctin) then [g] + gs else [gs[0]] + InsertGroup(gs[1..], g)
  }

  function SortGroups(gs: seq<Group>): seq<Group> {
    if gs == [] then [] else InsertGroup(SortGroups(gs[..|gs| - 1]), gs[|gs| - 1])
  }

  lemma {:induction false} InsertGroupIs(gs: seq<Group>, g: Group)
    ensures forall x :: x in InsertGroup(gs, g) <==> x in gs || x == g
    ensures |InsertGroup(gs, g)| == |gs| + 1
    ensures Increasing(gs) && (forall i :: 0 <= i < |gs| ==> gs[i].ctin != g.ctin) ==> Increasing(InsertGroup(gs, g))
  {
    var r := InsertGroup(gs, g);
    if gs == [] {
    } else if Less(g.ctin, gs[0].ctin) {
      if Increasing(gs) {
        forall j | 0 < j < |r|
          ensures Less(g.ctin, r[j].ctin)
        {
          if j > 1 {
            LessTransitive(g.ctin, gs[0].ctin, gs[j - 1].ctin);
          }
        }
      }
    } else {
      InsertGroupIs(gs[1..], g);
      assert gs == [gs[0]] + gs[1..];
      LessTotal(g.ctin, gs[0].ctin);
      if Increasing(gs) && forall i :: 0 <= i < |gs| ==> gs[i].ctin != g.ctin {
        forall j | 0 < j < |r|
          ensures Less(gs[0].ctin, r[j].ctin)
        {
          assert r[j] in InsertGroup(gs[1..], g);
        }
      }
    }
  }

  predicate DistinctCtins(gs: seq<Group>) { forall i, j :: 0 <= i < j < |gs| ==> gs[i].ctin != gs[j].ctin }

  lemma {:induction false} SortGroupsIs(gs: seq<Group>)
    ensures forall x :: x in SortGroups(gs) <==> x in gs
    ensures |SortGroups(gs)| == |gs|
    ensures DistinctCtins(gs) ==> Increasing(SortGroups(gs))
  {
    if gs != [] {
      var front, g := gs[..|gs| - 1], gs[|gs| - 1];
      SortGroupsIs(front);
      InsertGroupIs(SortGroups(front), g);
      assert gs == front + [g];
      if DistinctCtins(gs) {
        forall i | 0 <= i < |front|
          ensures SortGroups(front)[i].ctin != g.ctin
        {
          assert SortGroups(front)[i] in front;
        }
      }
    }
  }

  // ----- the generator -----

  /** The lines of some rows, in order. */
  ghost predicate LinesOf(inv: seq<Line>, rows: seq<Row>) {
    |inv| == |rows| && forall k :: 0 <= k < |rows| ==> IsLineOf(inv[k], rows[k])
  }

  predicate IsLineOf(l: Line, r: Row) { Representable(r.date) && |r.ctin| >= 2 && l == LineOf(r) }

  ghost predicate IsGroupOf(g: Group, rows: seq<Row>) {
    |g.ctin| >= 2 && LinesOf(g.inv, Select(rows, g.ctin))
  }

  function GroupCtins(gs: seq<Group>): set<string> { set g | g in gs :: g.ctin }

  /** What the b2b section is: counterparties strictly increasing, exactly those that occur, each with
      the lines of its own rows in source order. */
  ghost predicate IsB2b(b2b: seq<Group>, rows: seq<Row>) {
    Increasing(b2b) && GroupCtins(b2b) == Ctins(rows) && forall g :: g in b2b ==> IsGroupOf(g, rows)
  }

  lemma {:induction false} SelectIs(rows: seq<Row>, ctin: string)
    requires Dated(rows)
    ensures forall i :: 0 <= i < |Select(rows, ctin)| ==>
      Select(rows, ctin)[i].ctin == ctin && Representable(Select(rows, ctin)[i].date)
  {
    if rows != [] {
      SelectIs(rows[..|rows| - 1], ctin);
    }
  }

  lemma GroupStep(d: Dict, rows: seq<Row>, i: nat)
    requires i < |rows| && Groups(d, rows[..i])
    ensures Groups(if rows[i].ctin != "" then Append(d, rows[i]) else d, rows[..i + 1])
    ensures Sum(rows[..i + 1], Value) == Sum(rows[..i], Value) + rows[i].total
  {
    assert rows[..i + 1] == rows[..i] + [rows[i]];
    AppendKeeps(d, rows[..i], rows[i]);
    SumSnoc(rows[..i], rows[i], Value);
  }

  method GroupRows(rows: seq<Row>) returns (d: Dict, curGt: int)
    ensures Groups(d, rows)
    ensures curGt == Sum(rows, Value)
  {
    d, curGt := Dict([], map[]), 0;
    for i := 0 to |rows|
      invariant Groups(d, rows[..i]) && curGt == Sum(rows[..i], Value)
    {
      var r := rows[i];
      GroupStep(d, rows, i);
      if r.ctin != "" {
        d := Append(d, r);
      }
      curGt := curGt + r.total;
    }
    assert rows[..|rows|] == rows;
  }

  method RenderLines(ctin: string, rows: seq<Row>) returns (inv: seq<Line>)
    requires |ctin| >= 2 && forall i :: 0 <= i < |rows| ==> rows[i].ctin == ctin && Representable(rows[i].date)
    ensures LinesOf(inv, rows)
  {
    inv := [];
    for i := 0 to |rows|
      invariant LinesOf(inv, rows[..i])
    {
      var line := LineOf(rows[i]);
      assert IsLineOf(line, rows[i]);
      inv := inv + [line];
    }
    assert rows[..|rows|] == rows;
  }

  ghost predicate RenderedUpTo(b2b: seq<Group>, d: Dict, rows: seq<Row>, i: nat) {
    |b2b| == i <= |d.order| &&
    forall k :: 0 <= k < i ==> b2b[k].ctin == d.order[k] && IsGroupOf(b2b[k], rows)
  }

  /** `generate_gstr1`: fails exactly when some counterparty is too short to hold a state code. */
  method GenerateGstr1(rows: seq<Row>) returns (r: Result<Payload>)
    requires Dated(rows)
    ensures r.Err? <==> exists c :: c in Ctins(rows) && |c| < 2
    ensures r.Ok? ==> IsB2b(r.value.b2b, rows) && r.value.curGt == Sum(rows, Value)
    ensures r.Ok? ==> forall c :: GroupSum(r.value.b2b, c) == Named(rows, c)
    ensures r.Ok? ==> r.value.curGt == GroupSum(r.value.b2b, Value) + Unnamed(rows, Value)
  {
    var d, curGt := GroupRows(rows);
    var b2b: seq<Group> := [];
    for i := 0 to |d.order|
      invariant RenderedUpTo(b2b, d, rows, i)
    {
      var ctin := d.order[i];
      assert ctin in Elements(d.order);
      if |ctin| < 2 {
        return Err;
      }
      SelectIs(rows, ctin);
      var inv := RenderLines(ctin, d.lists[ctin]);
      b2b := b2b + [Group(ctin, inv)];
    }
    RenderedAll(b2b, d, rows);
    B2bMoney(SortGroups(b2b), rows);
    r := Ok(Payload(SortGroups(b2b), curGt));
  }

  lemma RenderedAll(b2b: seq<Group>, d: Dict, rows: seq<Row>)
    requires Groups(d, rows) && RenderedUpTo(b2b, d, rows, |d.order|)
    ensures IsB2b(SortGroups(b2b), rows)
    ensures forall c :: c in Ctins(rows) ==> |c| >= 2
  {
    RenderedNames(b2b, d, rows);
    RenderedCtins(b2b, d.order, Ctins(rows));
    forall g | g in b2b
      ensures IsGroupOf(g, rows)
    {
      var k :| 0 <= k < |b2b| && b2b[k] == g;
    }
    SortedIsB2b(b2b, rows);
  }

  lemma RenderedNames(b2b: seq<Group>, d: Dict, rows: seq<Row>)
    requires RenderedUpTo(b2b, d, rows, |d.order|) && Distinct(d.order)
    ensures forall k :: 0 <= k < |b2b| ==> b2b[k].ctin == d.order[k] && |b2b[k].ctin| >= 2
    ensures DistinctCtins(b2b)
  {
    forall k | 0 <= k < |b2b|
      ensures b2b[k].ctin == d.order[k] && |b2b[k].ctin| >= 2
    {
      assert IsGroupOf(b2b[k], rows);
    }
  }

  lemma SortedIsB2b(b2b: seq<Group>, rows: seq<Row>)
    requires DistinctCtins(b2b) && GroupCtins(b2b) == Ctins(rows)
    requires forall g :: g in b2b ==> IsGroupOf(g, rows)
    ensures IsB2b(SortGroups(b2b), rows)
  {
    SortGroupsIs(b2b);
    assert GroupCtins(SortGroups(b2b)) == GroupCtins(b2b);
  }

  lemma RenderedCtins(b2b: seq<Group>, order: seq<string>, ctins: set<string>)
    requires |b2b| == |order| && Elements(order) == ctins
    requires forall k :: 0 <= k < |b2b| ==> b2b[k].ctin == order[k] && |b2b[k].ctin| >= 2
    ensures GroupCtins(b2b) == ctins
    ensures forall c :: c in ctins ==> |c| >= 2
  {
    forall c | c in ctins
      ensures c in GroupCtins(b2b) && |c| >= 2
    {
      var k :| 0 <= k < |order| && order[k] == c;
      assert b2b[k] in b2b;
    }
    forall g | g in b2b
      ensures g.ctin in ctins
    {
      var k :| 0 <= k < |b2b| && b2b[k] == g;
      assert order[k] in Elements(order);
    }
  }

  // ----- conservation -----

  /** The rows behind the listed counterparties, one after the other. */
  function Gathered(ctins: seq<string>, rows: seq<Row>): seq<Row> {
    if ctins == [] then [] else Gathered(ctins[..|ctins| - 1], rows) + Select(rows, ctins[|ctins| - 1])
  }

  /** One more row lands in exactly one place, if its counterparty is listed. */
  lemma {:induction false} GatheredSnoc(ctins: seq<string>, rows: seq<Row>, r: Row)
    requires Distinct(ctins)
    ensures multiset(Gathered(ctins, rows + [r])) ==
      multiset(Gathered(ctins, rows)) + Single(r, r.ctin in ctins)
  {
    if ctins != [] {
      var front, c := ctins[..|ctins| - 1], ctins[|ctins| - 1];
      assert ctins == front + [c];
      GatheredSnoc(front, rows, r);
      MemberSnoc(front, c, r.ctin);
      GatheredParts(ctins, rows);
      GatheredParts(ctins, rows + [r]);
      SelectSnocMultiset(rows, r, c);
      AddOnce(multiset(Gathered(front, rows)), multiset(Select(rows, c)), r, r.ctin in front, r.ctin == c);
    }
  }

  function Single(r: Row, here: bool): multiset<Row> { if here then multiset{r} else multiset{} }

  lemma AddOnce(a: multiset<Row>, b: multiset<Row>, r: Row, inFront: bool, isLast: bool)
    requires !(inFront && isLast)
    ensures (a + Single(r, inFront)) + (b + Single(r, isLast)) == (a + b) + Single(r, inFront || isLast)
  {
  }

  lemma MemberSnoc(front: seq<string>, c: string, x: string)
    requires Distinct(front + [c])
    ensures x in front + [c] <==> x in front || x == c
    ensures !(x in front && x == c)
  {
    forall i | 0 <= i < |front|
      ensures front[i] != c
    {
      assert (front + [c])[i] == front[i] && (front + [c])[|front|] == c;
    }
  }

  lemma SelectSnocMultiset(rows: seq<Row>, r: Row, c: string)
    ensures multiset(Select(rows + [r], c)) ==
      multiset(Select(rows, c)) + Single(r, r.ctin == c)
  {
    SelectSnoc(rows, r, c);
    MultisetParts(Select(rows, c), if r.ctin == c then [r] else []);
  }

  lemma GatheredParts(ctins: seq<string>, rows: seq<Row>)
    requires ctins != []
    ensures multiset(Gathered(ctins, rows)) ==
      multiset(Gathered(ctins[..|ctins| - 1], rows)) + multiset(Select(rows, ctins[|ctins| - 1]))
  {
  }

  lemma MultisetParts(a: seq<Row>, b: seq<Row>)
    ensures multiset(a + b) == multiset(a) + multiset(b)
  {
  }

  lemma {:induction false} NothingGathered(ctins: seq<string>)
    ensures Gathered(ctins, []) == []
  {
    if ctins != [] {
      NothingGathered(ctins[..|ctins| - 1]);
    }
  }

  lemma {:induction false} SumOfMultiset(a: seq<Row>, b: seq<Row>, c: Column)
    requires multiset(a) == multiset(b)
    ensures Sum(a, c) == Sum(b, c)
  {
    if a == [] {
      assert |multiset(b)| == 0;
    } else {
      var front, r := a[..|a| - 1], a[|a| - 1];
      assert a == front + [r];
      assert r in multiset(b);
      var k :| 0 <= k < |b| && b[k] == r;
      var x, y := b[..k], b[k + 1..];
      RemoveAt(b, k, x, y);
      SumWithout(b, k, x, y, c);
      MultisetParts(front, [r]);
      SameRest(multiset(front), multiset(x + y), r);
      SumOfMultiset(front, x + y, c);
    }
  }

  lemma RemoveAt(b: seq<Row>, k: nat, x: seq<Row>, y: seq<Row>)
    requires k < |b| && x == b[..k] && y == b[k + 1..]
    ensures multiset(b) == multiset(x + y) + multiset{b[k]}
  {
    Recompose(b, k);
    MoveOut(x, b[k], y);
  }

  lemma SumWithout(b: seq<Row>, k: nat, x: seq<Row>, y: seq<Row>, c: Column)
    requires k < |b| && x == b[..k] && y == b[k + 1..]
    ensures Sum(b, c) == Sum(x + y, c) + OfRow(b[k], c)
  {
    Recompose(b, k);
    SumMoveOut(x, b[k], y, c);
  }

  lemma SameRest(a: multiset<Row>, b: multiset<Row>, r: Row)
    requires a + multiset{r} == b + multiset{r}
    ensures a == b
  {
    assert a == (a + multiset{r}) - multiset{r};
    assert b == (b + multiset{r}) - multiset{r};
  }

  lemma Recompose(b: seq<Row>, k: nat)
    requires k < |b|
    ensures (b[..k] + [b[k]]) + b[k + 1..] == b
  {
  }

  lemma MoveOut(x: seq<Row>, r: Row, y: seq<Row>)
    ensures multiset((x + [r]) + y) == multiset(x + y) + multiset{r}
  {
  }

  lemma SumMoveOut(x: seq<Row>, r: Row, y: seq<Row>, c: Column)
    ensures Sum((x + [r]) + y, c) == Sum(x + y, c) + OfRow(r, c)
  {
    SumConcat(x + [r], y, c);
    SumSnoc(x, r, c);
    SumConcat(x, y, c);
  }

  lemma {:induction false} SumConcat(a: seq<Row>, b: seq<Row>, c: Column)
    ensures Sum(a + b, c) == Sum(a, c) + Sum(b, c)
  {
    if b == [] {
      assert a + b == a;
    } else {
      SumConcat(a, b[..|b| - 1], c);
      assert (a + b)[..|a + b| - 1] == a + b[..|b| - 1];
    }
  }

  /** The listed counterparties, if they are all of them, hold every b2b row exactly once. */
  lemma {:induction false} GroupingConserves(ctins: seq<string>, rows: seq<Row>)
    requires Distinct(ctins) && "" !in ctins && Ctins(rows) <= Elements(ctins)
    ensures multiset(Gathered(ctins, rows)) == multiset(B2b(rows))
  {
    if rows == [] {
      NothingGathered(ctins);
    } else {
      var front, r := rows[..|rows| - 1], rows[|rows| - 1];
      assert rows == front + [r];
      CtinsSnoc(front, r);
      GroupingConserves(ctins, front);
      GatheredSnoc(ctins, front, r);
      B2bSnoc(front, r);
      assert r.ctin in ctins <==> r.ctin != "" by {
        assert r.ctin != "" ==> r.ctin in Elements(ctins);
      }
    }
  }

  /** Rows with and without a counterparty add up to all of them. */
  lemma {:induction false} SumSplits(rows: seq<Row>, c: Column)
    ensures Sum(rows, c) == Named(rows, c) + Unnamed(rows, c)
  {
    if rows != [] {
      SumSplits(rows[..|rows| - 1], c);
    }
  }

  lemma {:induction false} NamedIsB2b(rows: seq<Row>, c: Column)
    ensures Sum(B2b(rows), c) == Named(rows, c)
  {
    if rows != [] {
      var front, r := rows[..|rows| - 1], rows[|rows| - 1];
      NamedIsB2b(front, c);
      SumSnoc(B2b(front), r, c);
      assert B2b(front) + [] == B2b(front);
    }
  }

  function CtinList(gs: seq<Group>): seq<string> { seq(|gs|, i requires 0 <= i < |gs| => gs[i].ctin) }

  lemma CtinListIs(b2b: seq<Group>, rows: seq<Row>)
    requires IsB2b(b2b, rows)
    ensures Distinct(CtinList(b2b)) && "" !in CtinList(b2b) && Ctins(rows) <= Elements(CtinList(b2b))
  {
    var ctins := CtinList(b2b);
    forall i, j | 0 <= i < j < |ctins|
      ensures ctins[i] != ctins[j]
    {
      LessIrreflexive(b2b[i].ctin);
    }
    forall c | c in Ctins(rows)
      ensures c in Elements(ctins)
    {
      var g :| g in b2b && g.ctin == c;
      var i :| 0 <= i < |b2b| && b2b[i] == g;
      assert ctins[i] == c;
    }
    assert "" !in ctins by {
      assert forall i :: 0 <= i < |ctins| ==> b2b[i] in b2b;
    }
  }

  /** A b2b section holds every row with a counterparty exactly once and no other row. */
  lemma B2bConserves(b2b: seq<Group>, rows: seq<Row>)
    requires IsB2b(b2b, rows)
    ensures multiset(Gathered(CtinList(b2b), rows)) == multiset(B2b(rows))
  {
    CtinListIs(b2b, rows);
    GroupingConserves(CtinList(b2b), rows);
  }

  // ----- what is filed -----

  /** A filed line: the row's number and date, the state code of its counterparty, its money column by column, and
      a rate within half a hundredth of a percent of the line's own tax on the line's own value. */
  lemma LineIs(l: Line, r: Row)
    requires IsLineOf(l, r)
    ensures l.inum == r.number && l.pos == r.ctin[..2]
    ensures forall c :: OfLine(l, c) == OfRow(r, c)
    ensures |l.idt| == 10 && l.idt[2] == '-' && l.idt[5] == '-'
    ensures Val(l.idt[..2]) == r.date.d && Val(l.idt[3..5]) == r.date.m && Val(l.idt[6..]) == r.date.y
    ensures l.txval <= 0 ==> l.rate == 0
    ensures l.txval > 0 ==> Abs(2 * (l.txval * l.rate) - 20000 * (l.camt + l.samt + l.iamt)) <= l.txval
    ensures l.txval > 0 && l.camt + l.samt + l.iamt >= 0 ==>
      2 * (10000 * (l.camt + l.samt + l.iamt) - l.txval * l.rate) < l.txval
  {
    DateReads(r.date);
    if l.txval > 0 {
      RateTied(l.txval, l.camt + l.samt + l.iamt);
    }
  }

  lemma RateTied(value: int, tax: int)
    requires value > 0
    ensures var rate := HalfUpDiv(tax * 10000, value);
      Abs(2 * (value * rate) - 20000 * tax) <= value &&
      (tax >= 0 ==> 2 * (10000 * tax - value * rate) < value)
  {
    var rate := HalfUpDiv(tax * 10000, value);
    HalfUpDivIsNearest(tax * 10000, value);
    if tax >= 0 {
      HalfUpDivAtLeast(tax * 10000, value, rate + 1);
      assert (2 * (rate + 1) - 1) * value == 2 * (value * rate) + value;
    }
  }

  lemma DateReads(t: Date)
    requires Representable(t)
    ensures var s := IndianDate(t);
      |s| == 10 && s[2] == '-' && s[5] == '-' && Val(s[..2]) == t.d && Val(s[3..5]) == t.m && Val(s[6..]) == t.y
  {
    var d, m, c, y := Pad2(t.d), Pad2(t.m), Pad2(t.y / 100), Pad2(t.y % 100);
    DateSlices(d, m, c, y);
    FourDigits(c, y);
  }

  lemma DateSlices(d: string, m: string, c: string, y: string)
    requires |d| == |m| == |c| == |y| == 2
    ensures var s := d + "-" + m + "-" + c + y;
      |s| == 10 && s[2] == '-' && s[5] == '-' && s[..2] == d && s[3..5] == m && s[6..] == c + y
  {
  }

  lemma ValSnoc(s: string, d: char)
    requires AllDigits(s) && IsDigit(d)
    ensures AllDigits(s + [d]) && Val(s + [d]) == 10 * Val(s) + DigitValue(d)
  {
    assert (s + [d])[..|s|] == s;
  }

  lemma TwoMore(s: string, d: char, e: char)
    requires AllDigits(s) && IsDigit(d) && IsDigit(e)
    ensures AllDigits((s + [d]) + [e]) && Val((s + [d]) + [e]) == 100 * Val(s) + (10 * DigitValue(d) + DigitValue(e))
  {
    ValSnoc(s, d);
    ValSnoc(s + [d], e);
  }

  lemma FourDigits(c: string, y: string)
    requires |c| == |y| == 2 && AllDigits(c) && AllDigits(y)
    ensures AllDigits(c + y) && Val(c + y) == 100 * Val(c) + Val(y)
  {
    TwoMore(c, y[0], y[1]);
    TwoMore([], y[0], y[1]);
    assert c + y == (c + [y[0]]) + [y[1]];
    assert y == ([] + [y[0]]) + [y[1]];
  }

  lemma {:induction false} LinesKeepMoney(inv: seq<Line>, rows: seq<Row>, c: Column)
    requires LinesOf(inv, rows)
    ensures LineSum(inv, c) == Sum(rows, c)
  {
    if inv != [] {
      var n := |inv| - 1;
      LinesKeepMoney(inv[..n], rows[..n], c);
      LineIs(inv[n], rows[n]);
    }
  }

  lemma {:induction false} GroupsKeepMoney(gs: seq<Group>, rows: seq<Row>, c: Column)
    requires forall g :: g in gs ==> IsGroupOf(g, rows)
    ensures GroupSum(gs, c) == Sum(Gathered(CtinList(gs), rows), c)
  {
    if gs != [] {
      var front, g := gs[..|gs| - 1], gs[|gs| - 1];
      assert g in gs && IsGroupOf(g, rows);
      GroupsKeepMoney(front, rows, c);
      LinesKeepMoney(g.inv, Select(rows, g.ctin), c);
      assert CtinList(gs)[..|gs| - 1] == CtinList(front);
      SumConcat(Gathered(CtinList(front), rows), Select(rows, g.ctin), c);
    }
  }

  /** Every money column of the filed section adds up to that column over the rows with a counterparty; the turnover
      is the filed value plus that of the rows left out. */
  lemma B2bMoney(b2b: seq<Group>, rows: seq<Row>)
    requires IsB2b(b2b, rows)
    ensures forall c :: GroupSum(b2b, c) == Named(rows, c)
    ensures Sum(rows, Value) == GroupSum(b2b, Value) + Unnamed(rows, Value)
  {
    B2bConserves(b2b, rows);
    forall c
      ensures GroupSum(b2b, c) == Named(rows, c) && Sum(rows, c) == Named(rows, c) + Unnamed(rows, c)
    {
      GroupsKeepMoney(b2b, rows, c);
      SumOfMultiset(Gathered(CtinList(b2b), rows), B2b(rows), c);
      SumSplits(rows, c);
      NamedIsB2b(rows, c);
    }
  }

  /** `a` and `b` agree up to `k`, where `a` ends or has the smaller character. */
  predicate DiffersAt(a: string, b: string, k: nat) {
    k <= |a| && k < |b| && (forall i :: 0 <= i < k ==> a[i] == b[i]) && (k == |a| || a[k] < b[k])
  }

  lemma DiffersLater(a: string, b: string, k: nat)
    requires a != [] && b != [] && a[0] == b[0]
    ensures DiffersAt(a, b, k + 1) <==> DiffersAt(a[1..], b[1..], k)
  {
    if DiffersAt(a[1..], b[1..], k) {
      forall i | 0 < i < k + 1
        ensures a[i] == b[i]
      {
        assert a[i] == a[1..][i - 1] && b[i] == b[1..][i - 1];
      }
    }
  }

  /** The order of the section is that of the first differing characters. */
  lemma {:induction false} LessExactly(a: string, b: string)
    ensures Less(a, b) <==> exists k: nat :: DiffersAt(a, b, k)
  {
    if a != [] && b != [] && a[0] == b[0] {
      LessExactly(a[1..], b[1..]);
      if Less(a, b) {
        var k: nat :| DiffersAt(a[1..], b[1..], k);
        DiffersLater(a, b, k);
      }
      if k: nat :| DiffersAt(a, b, k) {
        DiffersLater(a, b, k - 1);
      }
    } else {
      assert Less(a, b) ==> DiffersAt(a, b, 0);
    }
  }

  lemma {:induction false} LessIrreflexive(a: string)
    ensures !Less(a, a)
  {
    if a != [] {
      LessIrreflexive(a[1..]);
    }
  }
}
