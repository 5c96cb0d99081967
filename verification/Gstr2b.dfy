/** The GSTR-2B parser (ingestion/gstr2b_parser.py): nested loops over suppliers and their documents that
    must lose nothing, and per-item rounding that must stay bounded. */
module Gstr2b {
  import opened Wrappers
  import opened Periods
  import Digits
  import opened Canonical
  import opened Money

  // ----- the input, after JSON and date parsing -----

  datatype RawDate = NoDate | BadDate | GoodDate(t: Date)

  datatype Item = Item(taxable: Amount, cgst: Amount, sgst: Amount, igst: Amount, cess: Amount)

  /** An invoice, or a credit or debit note (`noteKind` is its `ntty`). `totals` holds the document-level
      amounts, used when there is no item list. */
  datatype Doc = Doc(number: string, date: RawDate, noteKind: string, items: seq<Item>, totals: Item,
                     itcAvailable: string, imsStatus: string, imsAction: string)

  /** A supplier block; `docs` is None when its list is not a list. */
  datatype Supplier = Supplier(ctin: string, docs: Option<seq<Doc>>)

  datatype Section = B2b | Cdnr

  // ----- the output -----

  datatype NoteType = CreditNote | DebitNote

  datatype Heads = Heads(taxable: nat, cgst: nat, sgst: nat, igst: nat, cess: nat)

  datatype Entry = Entry(supplier: string, number: string, date: Date, heads: Heads, itcAvailable: bool,
                         note: Option<NoteType>, imsStatus: Option<string>, imsAction: Option<string>)

  datatype Reason = Schema | MissingRequired | BadDateReason | BadAmount

  datatype Reject = Reject(reason: Reason, rowIndex: nat)

  datatype Parsed = Accepted(entry: Entry) | Refused(reason: Reason) | Aborted

  datatype ParseResult = ParseResult(entries: seq<Entry>, rejects: seq<Reject>,
                                     ctinCount: nat, invoiceCount: nat, noteCount: nat)

  // ----- amounts -----

  /** Python's `sum` of converted amounts: it stops at the first that does not convert. */
  function SumAmounts(amounts: seq<Amount>): Outcome<nat> {
    if amounts == [] then Got(0)
    else
      var before :- SumAmounts(amounts[..|amounts| - 1]);
      var last :- RupeesToPaise(amounts[|amounts| - 1]);
      Got(before + last)
  }

  /** One of the five columns. */
  datatype Column = Taxable | Cgst | Sgst | Igst | Cess

  function Source(i: Item, c: Column): Amount {
    match c case Taxable => i.taxable case Cgst => i.cgst case Sgst => i.sgst case Igst => i.igst case Cess => i.cess
  }

  function Paise(h: Heads, c: Column): nat {
    match c case Taxable => h.taxable case Cgst => h.cgst case Sgst => h.sgst case Igst => h.igst case Cess => h.cess
  }

  function ColumnOf(items: seq<Item>, c: Column): seq<Amount> {
    seq(|items|, i requires 0 <= i < |items| => Source(items[i], c))
  }

  /** Column after column, each over all the items. */
  function SumItems(items: seq<Item>): Outcome<Heads> {
    var taxable :- SumAmounts(ColumnOf(items, Taxable));
    var cgst :- SumAmounts(ColumnOf(items, Cgst));
    var sgst :- SumAmounts(ColumnOf(items, Sgst));
    var igst :- SumAmounts(ColumnOf(items, Igst));
    var cess :- SumAmounts(ColumnOf(items, Cess));
    Got(Heads(taxable, cgst, sgst, igst, cess))
  }

  /** The item breakdown when present; otherwise the document's own amounts, read in the same column order. */
  function Breakdown(d: Doc): seq<Item> { if d.items != [] then d.items else [d.totals] }

  // ----- how far a sum is from the exact rupees -----

  function Rupees(a: Amount): real { if a.Decimal? then a.coefficient as real / Pow10(a.places) as real else 0.0 }

  function ExactRupees(amounts: seq<Amount>): real {
    if amounts == [] then 0.0 else ExactRupees(amounts[..|amounts| - 1]) + Rupees(amounts[|amounts| - 1])
  }

  function Distance(x: real, y: real): (r: real)
    ensures r >= 0.0
  {
    if x >= y then x - y else y - x
  }

  /** At most 28 digits. */
  predicate Short(a: Amount) { a.Decimal? ==> a.coefficient < LIMIT }

  lemma RealBound(z: real, p: real, m: real)
    requires p > 0.0 && -m * p <= z * p <= m * p
    ensures -m <= z <= m
  {
    assert z > m ==> (z - m) * p > 0.0;
    assert z < -m ==> (-m - z) * p > 0.0;
  }

  lemma RealProduct(a: int, b: int)
    ensures (a * b) as real == a as real * b as real
  {
  }

  lemma RealScale(y: real, v: real, p: real)
    ensures (2.0 * y - 200.0 * v) * p == 2.0 * (p * y) - 200.0 * (v * p)
  {
  }

  lemma RealDistance(y: real, c: real, p: real, m: real)
    requires p > 0.0 && -m * p <= 2.0 * (p * y) - 200.0 * c <= m * p
    ensures 2.0 * Distance(y, 100.0 * (c / p)) <= m
  {
    var v := c / p;
    assert v * p == c;
    RealScale(y, v, p);
    RealBound(2.0 * y - 200.0 * v, p, m);
  }

  lemma IntToReal(px: int, mp: int, c: int)
    requires Digits.Abs(2 * px - 200 * c) <= mp
    ensures -(mp as real) <= 2.0 * px as real - 200.0 * c as real <= mp as real
  {
  }

  lemma ScaledDistance(x: nat, c: nat, p: nat, m: nat, px: int, mp: int)
    requires p >= 1 && px == p * x && mp == m * p && Digits.Abs(2 * px - 200 * c) <= mp
    ensures 2.0 * Distance(x as real, 100.0 * (c as real / p as real)) <= m as real
  {
    IntToReal(px, mp, c);
    RealProduct(p, x);
    RealProduct(m, p);
    RealDistance(x as real, c as real, p as real, m as real);
  }

  lemma DecimalRounding(a: Amount, x: nat, p: nat)
    requires a.Decimal? && RupeesToPaise(a) == Got(x) && p == Pow10(a.places)
    ensures Digits.Abs(2 * (p * x) - 200 * a.coefficient) <= if Short(a) then p else 2 * p
  {
    PaiseIsNearest(a);
  }

  lemma OneRounding(a: Amount)
    requires RupeesToPaise(a).Got?
    ensures Distance(RupeesToPaise(a).value as real, 100.0 * Rupees(a)) <= if Short(a) then 0.5 else 1.0
  {
    if a.Decimal? {
      var x, p := RupeesToPaise(a).value, Pow10(a.places);
      var px := p * x;
      DecimalRounding(a, x, p);
      if Short(a) {
        ScaledDistance(x, a.coefficient, p, 1, px, p);
      } else {
        ScaledDistance(x, a.coefficient, p, 2, px, 2 * p);
      }
    }
  }

  /** A column's sum differs from the exact rupee sum by at most half a paisa per amount, when no amount has more
      than 28 digits; and by at most a paisa per amount whatever they are. */
  lemma {:induction false} SumRounding(amounts: seq<Amount>)
    requires SumAmounts(amounts).Got?
    ensures Distance(SumAmounts(amounts).value as real, 100.0 * ExactRupees(amounts)) <= |amounts| as real
    ensures (forall i :: 0 <= i < |amounts| ==> Short(amounts[i])) ==>
      Distance(SumAmounts(amounts).value as real, 100.0 * ExactRupees(amounts)) <= |amounts| as real / 2.0
  {
    if amounts != [] {
      SumRounding(amounts[..|amounts| - 1]);
      OneRounding(amounts[|amounts| - 1]);
    }
  }

  lemma HeadsAreSums(items: seq<Item>, c: Column)
    requires SumItems(items).Got?
    ensures SumAmounts(ColumnOf(items, c)) == Got(Paise(SumItems(items).value, c))
  {
  }

  // ----- how a sum fails -----

  /** The amounts in the order they are read. */
  function Cells(items: seq<Item>): seq<Amount> {
    ColumnOf(items, Taxable) + (ColumnOf(items, Cgst) + (ColumnOf(items, Sgst)
      + (ColumnOf(items, Igst) + ColumnOf(items, Cess))))
  }

  predicate SameFailure<T, U>(a: Outcome<T>, b: Outcome<U>) {
    (a.ValueError? <==> b.ValueError?) && (a.InvalidOperation? <==> b.InvalidOperation?)
  }

  lemma {:induction false} SumConcat(a: seq<Amount>, b: seq<Amount>)
    ensures SameFailure(SumAmounts(a + b), if SumAmounts(a).Got? then SumAmounts(b) else SumAmounts(a))
  {
    if b == [] {
      assert a + b == a;
    } else {
      SumConcat(a, b[..|b| - 1]);
      assert (a + b)[..|a + b| - 1] == a + b[..|b| - 1];
    }
  }

  lemma CellsFail(items: seq<Item>)
    ensures SameFailure(SumItems(items), SumAmounts(Cells(items)))
  {
    var g, x := ColumnOf(items, Igst), ColumnOf(items, Cess);
    var c, s := ColumnOf(items, Cgst), ColumnOf(items, Sgst);
    SumConcat(g, x);
    SumConcat(s, g + x);
    SumConcat(c, s + (g + x));
    SumConcat(ColumnOf(items, Taxable), c + (s + (g + x)));
  }

  /** Some amount satisfies `first`, and none before it satisfies `second`. */
  predicate Before(first: Amount -> bool, second: Amount -> bool, cells: seq<Amount>) {
    exists k :: 0 <= k < |cells| && first(cells[k]) && forall j :: 0 <= j < k ==> !second(cells[j])
  }

  predicate RefusedFirst(cells: seq<Amount>) { Before(Refusable, Raises, cells) }

  predicate RaisesFirst(cells: seq<Amount>) { Before(Raises, Refusable, cells) }

  lemma {:induction false} SumFails(cells: seq<Amount>)
    ensures SumAmounts(cells).ValueError? <==> RefusedFirst(cells)
    ensures SumAmounts(cells).InvalidOperation? <==> RaisesFirst(cells)
    ensures SumAmounts(cells).Got? ==> forall j :: 0 <= j < |cells| ==> !Raises(cells[j]) && !Refusable(cells[j])
  {
    if cells != [] {
      var front, v := cells[..|cells| - 1], cells[|cells| - 1];
      SumFails(front);
      RaisesExactly(v);
      BeforeSnoc(Refusable, Raises, front, v);
      BeforeSnoc(Raises, Refusable, front, v);
      assert cells == front + [v];
    }
  }

  lemma BeforeSnoc(first: Amount -> bool, second: Amount -> bool, front: seq<Amount>, v: Amount)
    ensures Before(first, second, front + [v]) <==>
      Before(first, second, front) || (first(v) && forall j :: 0 <= j < |front| ==> !second(front[j]))
  {
    var cells := front + [v];
    assert cells[..|front|] == front && cells[|front|] == v;
    if Before(first, second, front) {
      var k :| 0 <= k < |front| && first(front[k]) && forall j :: 0 <= j < k ==> !second(front[j]);
      assert first(cells[k]) && forall j :: 0 <= j < k ==> !second(cells[j]);
    }
    if Before(first, second, cells) {
      var k :| 0 <= k < |cells| && first(cells[k]) && forall j :: 0 <= j < k ==> !second(cells[j]);
      assert forall j :: 0 <= j < |front| ==> front[j] == cells[j];
    }
    if first(v) && forall j :: 0 <= j < |front| ==> !second(front[j]) {
      assert first(cells[|front|]) && forall j :: 0 <= j < |front| ==> cells[j] == front[j];
    }
  }

  /** Reading column by column and item by item: a breakdown is refused exactly when it meets an unreadable or
      negative amount before any that raises past the handler, and raises exactly the other way round. */
  lemma SumFailsExactly(items: seq<Item>)
    ensures SumItems(items).ValueError? <==> RefusedFirst(Cells(items))
    ensures SumItems(items).InvalidOperation? <==> RaisesFirst(Cells(items))
  {
    CellsFail(items);
    SumFails(Cells(items));
  }

  // ----- one document -----

  /** `str(x).strip()` when there is one. */
  function Optional(s: string): Option<string> { if s == "" then None else Some(Strip(s)) }

  function FlagIsY(s: string): bool { s == "" || ToUpper(s) == "Y" }

  /** `Aborted` is an exception that leaves the parser. */
  function ParseDoc(section: Section, ctin: string, d: Doc): Parsed {
    var kind := ToUpper(d.noteKind);
    if d.number == "" || d.date.NoDate? || (section == Cdnr && kind != "C" && kind != "D") then Refused(MissingRequired)
    else if d.date.BadDate? then Refused(BadDateReason)
    else
      match SumItems(Breakdown(d))
      case ValueError => Refused(BadAmount)
      case InvalidOperation => Aborted
      case Got(heads) =>
        Accepted(Entry(ctin, d.number, d.date.t, heads, FlagIsY(d.itcAvailable),
                       if section == B2b then None else if kind == "C" then Some(CreditNote) else Some(DebitNote),
                       Optional(d.imsStatus), Optional(d.imsAction)))
  }

  /** The document has what the parser asks for before it reads the amounts. */
  predicate Complete(section: Section, d: Doc) {
    d.number != "" && d.date.GoodDate? && (section == Cdnr ==> ToUpper(d.noteKind) == "C" || ToUpper(d.noteKind) == "D")
  }

  /** A complete document whose amounts raise before any of them is refusable. */
  predicate Poisons(section: Section, d: Doc) {
    Complete(section, d) && RaisesFirst(Cells(if d.items != [] then d.items else [d.totals]))
  }

  /** A document aborts the parse exactly when it poisons it. */
  lemma AbortsExactly(section: Section, ctin: string, d: Doc)
    ensures ParseDoc(section, ctin, d).Aborted? <==> Poisons(section, d)
  {
    SumFailsExactly(Breakdown(d));
  }

  lemma OneLetter(s: string, upper: char, lower: char)
    requires 'A' <= upper <= 'Z' && lower as int == upper as int + 32
    ensures ToUpper(s) == [upper] <==> s == [upper] || s == [lower]
  {
    if ToUpper(s) == [upper] {
      assert ToUpper(s)[0] == upper;
      assert s == [s[0]];
    }
  }

  /** Which amount of an item each column takes. */
  lemma SourceIs(i: Item)
    ensures Source(i, Taxable) == i.taxable && Source(i, Cgst) == i.cgst && Source(i, Sgst) == i.sgst
    ensures Source(i, Igst) == i.igst && Source(i, Cess) == i.cess
  {
  }

  /** Each head of a document is the sum of its own column, over the items or else over the document's own amounts. */
  lemma HeadsAre(d: Doc)
    requires SumItems(Breakdown(d)).Got?
    ensures var h := SumItems(Breakdown(d)).value;
      var items := if d.items != [] then d.items else [d.totals];
      SumAmounts(ColumnOf(items, Taxable)) == Got(h.taxable) && SumAmounts(ColumnOf(items, Cgst)) == Got(h.cgst) &&
      SumAmounts(ColumnOf(items, Sgst)) == Got(h.sgst) && SumAmounts(ColumnOf(items, Igst)) == Got(h.igst) &&
      SumAmounts(ColumnOf(items, Cess)) == Got(h.cess)
  {
  }

  /** What an entry says: the supplier, number and date of its document, with the heads above; credit available when
      the flag is blank or a Y; a credit note for a C, a debit note for a D, and no note for an invoice; and the
      stripped IMS texts, absent when blank. */
  lemma EntryIs(section: Section, ctin: string, d: Doc)
    requires ParseDoc(section, ctin, d).Accepted?
    ensures var e := ParseDoc(section, ctin, d).entry;
      e.supplier == ctin && e.number == d.number && d.date == GoodDate(e.date) &&
      SumItems(Breakdown(d)) == Got(e.heads) &&
      (e.itcAvailable <==> d.itcAvailable == "" || d.itcAvailable == "Y" || d.itcAvailable == "y") &&
      (section == B2b ==> e.note == None) &&
      (section == Cdnr && (d.noteKind == "C" || d.noteKind == "c") ==> e.note == Some(CreditNote)) &&
      (section == Cdnr && (d.noteKind == "D" || d.noteKind == "d") ==> e.note == Some(DebitNote)) &&
      e.imsStatus == (if d.imsStatus == "" then None else Some(Strip(d.imsStatus))) &&
      e.imsAction == (if d.imsAction == "" then None else Some(Strip(d.imsAction)))
  {
    OneLetter(d.itcAvailable, 'Y', 'y');
    OneLetter(d.noteKind, 'C', 'c');
    OneLetter(d.noteKind, 'D', 'd');
  }

  /** Why a document is refused: first what is missing, then the date, then the amounts; and when it is not. */
  lemma RefusalExactly(section: Section, ctin: string, d: Doc)
    ensures var p := ParseDoc(section, ctin, d);
      var missing := d.number == "" || d.date.NoDate? ||
        (section == Cdnr && d.noteKind != "C" && d.noteKind != "c" && d.noteKind != "D" && d.noteKind != "d");
      (p == Refused(MissingRequired) <==> missing) &&
      (p == Refused(BadDateReason) <==> !missing && d.date.BadDate?) &&
      var items := if d.items != [] then d.items else [d.totals];
      (p == Refused(BadAmount) <==> !missing && d.date.GoodDate? && RefusedFirst(Cells(items))) &&
      (p.Aborted? <==> !missing && d.date.GoodDate? && RaisesFirst(Cells(items))) &&
      p != Refused(Schema)
  {
    OneLetter(d.noteKind, 'C', 'c');
    OneLetter(d.noteKind, 'D', 'd');
    SumFailsExactly(Breakdown(d));
  }

  /** An otherwise complete invoice whose value is the text `NaN`. */
  function NanInvoice(t: Date): Doc {
    Doc("1", GoodDate(t), "", [], Item(NaN, Blank, Blank, Blank, Blank), "", "", "")
  }

  lemma NanPoisons(t: Date)
    ensures Poisons(B2b, NanInvoice(t))
  {
    assert Raises(Cells(Breakdown(NanInvoice(t)))[0]);
  }

  // ----- collecting -----

  /** The lists that `f` makes of the elements, joined. */
  function Gather<T, U>(f: T -> seq<U>, s: seq<T>): seq<U> {
    if s == [] then [] else Gather(f, s[..|s| - 1]) + f(s[|s| - 1])
  }

  lemma GatherSnoc<T, U>(f: T -> seq<U>, s: seq<T>, x: T)
    ensures Gather(f, s + [x]) == Gather(f, s) + f(x)
  {
    assert (s + [x])[..|s|] == s;
  }

  lemma {:induction false} GatherConcat<T, U>(f: T -> seq<U>, a: seq<T>, b: seq<T>)
    ensures Gather(f, a + b) == Gather(f, a) + Gather(f, b)
  {
    if b == [] {
      assert a + b == a;
    } else {
      var front, x := b[..|b| - 1], b[|b| - 1];
      GatherConcat(f, a, front);
      Digits.Assoc(a, front, [x]);
      GatherSnoc(f, a + front, x);
      Digits.Assoc(Gather(f, a), Gather(f, front), f(x));
      assert b == front + [x];
    }
  }

  // ----- a section -----

  predicate WellFormed(s: Supplier) { s.ctin != "" && s.docs.Some? }

  function DocsOf(s: Supplier): seq<Doc> { if WellFormed(s) then s.docs.value else [] }

  /** Every document of a section with its supplier, in source order. */
  datatype Listed = Listed(ctin: string, doc: Doc)

  function Tagged(ctin: string, docs: seq<Doc>): seq<Listed> {
    seq(|docs|, i requires 0 <= i < |docs| => Listed(ctin, docs[i]))
  }

  function AllDocs(ss: seq<Supplier>): seq<Listed> {
    if ss == [] then []
    else AllDocs(ss[..|ss| - 1]) + Tagged(ToUpper(ss[|ss| - 1].ctin), DocsOf(ss[|ss| - 1]))
  }

  function MalformedBlocks(ss: seq<Supplier>): nat {
    if ss == [] then 0 else MalformedBlocks(ss[..|ss| - 1]) + if WellFormed(ss[|ss| - 1]) then 0 else 1
  }

  /** The documents parsed are those of the blocks with a GSTIN and a list, under the GSTIN in upper case. */
  lemma {:induction false} AllDocsAre(ss: seq<Supplier>, x: Listed)
    ensures x in AllDocs(ss) <==>
      exists s :: s in ss && s.ctin != "" && s.docs.Some? && x.ctin == ToUpper(s.ctin) && x.doc in s.docs.value
  {
    if ss != [] {
      var front, last := ss[..|ss| - 1], ss[|ss| - 1];
      assert ss == front + [last];
      AllDocsAre(front, x);
      var docs := DocsOf(last);
      assert x in Tagged(ToUpper(last.ctin), docs) <==> x.ctin == ToUpper(last.ctin) && x.doc in docs by {
        if x.ctin == ToUpper(last.ctin) && x.doc in docs {
          var i :| 0 <= i < |docs| && docs[i] == x.doc;
          assert Tagged(ToUpper(last.ctin), docs)[i] == x;
        }
      }
    }
  }

  /** What becomes of each document. */
  function Parse(section: Section, docs: seq<Listed>): (ps: seq<Parsed>)
    ensures |ps| == |docs|
  {
    seq(|docs|, i requires 0 <= i < |docs| => ParseDoc(section, docs[i].ctin, docs[i].doc))
  }

  predicate Aborts(ps: seq<Parsed>) { exists i :: 0 <= i < |ps| && ps[i].Aborted? }

  /** What becomes of a document, and its row number. */
  datatype Row = Row(parsed: Parsed, row: nat)

  /** Rows are numbered from 1, after `before` earlier ones. */
  function Rows(ps: seq<Parsed>, before: nat): seq<Row> {
    seq(|ps|, i requires 0 <= i < |ps| => Row(ps[i], before + i + 1))
  }

  function EntryList(p: Parsed): seq<Entry> { if p.Accepted? then [p.entry] else [] }

  function RefusalList(r: Row): seq<Reject> { if r.parsed.Refused? then [Reject(r.parsed.reason, r.row)] else [] }

  /** The accepted entries, in order. */
  function Entries(ps: seq<Parsed>): seq<Entry> { Gather(EntryList, ps) }

  /** The refusals, in order, each with its row number. */
  function Refusals(ps: seq<Parsed>, before: nat): seq<Reject> { Gather(RefusalList, Rows(ps, before)) }

  lemma RefusalsConcat(a: seq<Parsed>, b: seq<Parsed>)
    ensures Refusals(a + b, 0) == Refusals(a, 0) + Refusals(b, |a|)
  {
    assert Rows(a + b, 0) == Rows(a, 0) + Rows(b, |a|);
    GatherConcat(RefusalList, Rows(a, 0), Rows(b, |a|));
  }

  lemma OneMoreRow(ps: seq<Parsed>, i: nat, before: nat)
    requires i < |ps|
    ensures Entries(ps[..i + 1]) == Entries(ps[..i]) + EntryList(ps[i])
    ensures Refusals(ps[..i + 1], before) == Refusals(ps[..i], before) + RefusalList(Row(ps[i], before + i + 1))
  {
    assert ps[..i + 1] == ps[..i] + [ps[i]];
    GatherSnoc(EntryList, ps[..i], ps[i]);
    assert Rows(ps[..i + 1], before) == Rows(ps[..i], before) + [Row(ps[i], before + i + 1)];
    GatherSnoc(RefusalList, Rows(ps[..i], before), Row(ps[i], before + i + 1));
  }

  /** Every document becomes exactly one entry or one refusal, unless some document aborts the parse. */
  lemma NothingLost(ps: seq<Parsed>, before: nat)
    ensures |Entries(ps)| + |Refusals(ps, before)| == |ps| <==> !Aborts(ps)
    ensures forall e :: e in Entries(ps) ==> Accepted(e) in ps
  {
    CountedUpTo(ps, before, |ps|);
    assert ps[..|ps|] == ps;
  }

  lemma {:induction false} CountedUpTo(ps: seq<Parsed>, before: nat, n: nat)
    requires n <= |ps|
    ensures var front := ps[..n];
      |Entries(front)| + |Refusals(front, before)| <= n &&
      (|Entries(front)| + |Refusals(front, before)| == n <==> !Aborts(front)) &&
      forall e :: e in Entries(front) ==> Accepted(e) in front
  {
    if n > 0 {
      var front, p := ps[..n - 1], ps[n - 1];
      CountedUpTo(ps, before, n - 1);
      OneMoreRow(ps, n - 1, before);
      assert ps[..n] == front + [p];
      AbortsConcat(front, [p]);
      assert Aborts([p]) <==> p.Aborted? by {
        assert [p][0] == p;
      }
    }
  }

  lemma AbortsConcat(a: seq<Parsed>, b: seq<Parsed>)
    ensures Aborts(a + b) <==> Aborts(a) || Aborts(b)
  {
    if Aborts(a) {
      var i :| 0 <= i < |a| && a[i].Aborted?;
      assert (a + b)[i].Aborted?;
    }
    if Aborts(b) {
      var i :| 0 <= i < |b| && b[i].Aborted?;
      assert (a + b)[|a| + i].Aborted?;
    }
  }

  /** An entry carries a note type exactly when it comes from the notes section. */
  lemma NoteTypes(section: Section, docs: seq<Listed>)
    ensures forall e :: e in Entries(Parse(section, docs)) ==> (e.note.Some? <==> section == Cdnr)
  {
    NothingLost(Parse(section, docs), 0);
    forall e | e in Entries(Parse(section, docs))
      ensures e.note.Some? <==> section == Cdnr
    {
      var i :| 0 <= i < |docs| && Parse(section, docs)[i] == Accepted(e);
      NoteOfDoc(section, docs[i].ctin, docs[i].doc);
    }
  }

  lemma NoteOfDoc(section: Section, ctin: string, d: Doc)
    ensures ParseDoc(section, ctin, d).Accepted? ==> (ParseDoc(section, ctin, d).entry.note.Some? <==> section == Cdnr)
  {
  }

  /** The rejects of a section: block-level ones carry the block's index, the others the document's. */
  function RejectsOf(section: Section, ss: seq<Supplier>): seq<Reject> {
    if ss == [] then []
    else
      var front, s := ss[..|ss| - 1], ss[|ss| - 1];
      RejectsOf(section, front) +
      (if !WellFormed(s) then [Reject(Schema, |front|)]
       else Refusals(Parse(section, Tagged(ToUpper(s.ctin), s.docs.value)), |AllDocs(front)|))
  }

  /** A schema reject stands for each supplier block without a GSTIN or without a list, under the block's index, and
      for no other. */
  lemma {:induction false} SchemaRejects(section: Section, ss: seq<Supplier>, ci: nat)
    ensures Reject(Schema, ci) in RejectsOf(section, ss) <==>
      ci < |ss| && (ss[ci].ctin == "" || ss[ci].docs.None?)
  {
    if ss != [] {
      var front, s := ss[..|ss| - 1], ss[|ss| - 1];
      SchemaRejects(section, front, ci);
      if WellFormed(s) {
        NeverSchema(section, Tagged(ToUpper(s.ctin), s.docs.value), |AllDocs(front)|);
      }
    }
  }

  lemma NeverSchema(section: Section, docs: seq<Listed>, before: nat)
    ensures forall r :: r in Refusals(Parse(section, docs), before) ==> r.reason != Schema
  {
    forall r | r in Refusals(Parse(section, docs), before)
      ensures r.reason != Schema
    {
      var x := GatherFrom(RefusalList, Rows(Parse(section, docs), before), r);
      var i :| 0 <= i < |docs| && Rows(Parse(section, docs), before)[i] == x;
      RefusalExactly(section, docs[i].ctin, docs[i].doc);
    }
  }

  lemma {:induction false} GatherFrom<T, U>(f: T -> seq<U>, s: seq<T>, u: U) returns (x: T)
    requires u in Gather(f, s)
    ensures x in s && u in f(x)
  {
    var front, last := s[..|s| - 1], s[|s| - 1];
    if u in f(last) {
      x := last;
    } else {
      x := GatherFrom(f, front, u);
    }
  }

  lemma {:induction false} GatherHas<T, U>(f: T -> seq<U>, s: seq<T>, x: T, u: U)
    requires x in s && u in f(x)
    ensures u in Gather(f, s)
  {
    var front, last := s[..|s| - 1], s[|s| - 1];
    if x != last {
      assert s == front + [last];
      GatherHas(f, front, x, u);
    }
  }

  /** A refusal is reported under the document's own reason and its position, counted from 1 after the documents
      before. */
  lemma RefusalRows(ps: seq<Parsed>, before: nat, reason: Reason, row: nat)
    ensures Reject(reason, row) in Refusals(ps, before) <==>
      exists i :: 0 <= i < |ps| && ps[i] == Refused(reason) && row == before + i + 1
  {
    var rows := Rows(ps, before);
    if Reject(reason, row) in Refusals(ps, before) {
      var x := GatherFrom(RefusalList, rows, Reject(reason, row));
      var i :| 0 <= i < |rows| && rows[i] == x;
      assert ps[i] == Refused(reason);
    }
    if i :| 0 <= i < |ps| && ps[i] == Refused(reason) && row == before + i + 1 {
      assert rows[i] in rows;
      GatherHas(RefusalList, rows, rows[i], Reject(reason, row));
    }
  }

  lemma ParseConcat(section: Section, a: seq<Listed>, b: seq<Listed>)
    ensures Parse(section, a + b) == Parse(section, a) + Parse(section, b)
  {
  }

  lemma {:induction false} RejectsCount(section: Section, ss: seq<Supplier>)
    ensures |RejectsOf(section, ss)| == |Refusals(Parse(section, AllDocs(ss)), 0)| + MalformedBlocks(ss)
  {
    if ss != [] {
      var front, s := ss[..|ss| - 1], ss[|ss| - 1];
      var a, b := AllDocs(front), Tagged(ToUpper(s.ctin), DocsOf(s));
      RejectsCount(section, front);
      ParseConcat(section, a, b);
      RefusalsConcat(Parse(section, a), Parse(section, b));
      if !WellFormed(s) {
        assert Parse(section, b) == [];
      }
    }
  }

  /** What a judgement makes of each document of a block. */
  function Judged(judge: Doc -> Parsed, docs: seq<Doc>): (ps: seq<Parsed>)
    ensures |ps| == |docs|
  {
    seq(|docs|, i requires 0 <= i < |docs| => judge(docs[i]))
  }

  /** The inner loop over one supplier's documents, numbered after the `before` documents already seen. Each
      document is appended as an entry, or reported, or ends the parse. */
  method ParseBlock(judge: Doc -> Parsed, docs: seq<Doc>, before: nat)
    returns (aborted: bool, entries: seq<Entry>, rejects: seq<Reject>, count: nat)
    ensures aborted <==> Aborts(Judged(judge, docs))
    ensures !aborted ==> entries == Entries(Judged(judge, docs))
    ensures !aborted ==> rejects == Refusals(Judged(judge, docs), before)
    ensures !aborted ==> count == before + |docs|
  {
    ghost var ps := Judged(judge, docs);
    aborted, entries, rejects, count := false, [], [], before;
    for di := 0 to |docs|
      invariant entries == Entries(ps[..di]) && rejects == Refusals(ps[..di], before)
      invariant count == before + di
      invariant forall i :: 0 <= i < di ==> !ps[i].Aborted?
    {
      count := count + 1;
      OneMoreRow(ps, di, before);
      assert ps[di] == judge(docs[di]);
      match judge(docs[di]) {
        case Aborted => return true, entries, rejects, count;
        case Refused(why) => rejects := rejects + [Reject(why, count)];
        case Accepted(e) => entries := entries + [e];
      }
    }
    assert ps[..|docs|] == ps;
  }

  lemma SkipBlock(section: Section, ss: seq<Supplier>, ci: nat)
    requires ci < |ss| && !WellFormed(ss[ci])
    ensures AllDocs(ss[..ci + 1]) == AllDocs(ss[..ci])
    ensures RejectsOf(section, ss[..ci + 1]) == RejectsOf(section, ss[..ci]) + [Reject(Schema, ci)]
  {
    assert ss[..ci + 1][..ci] == ss[..ci];
    assert Tagged(ToUpper(ss[ci].ctin), []) == [];
  }

  lemma TakeBlock(section: Section, ss: seq<Supplier>, ci: nat, ps: seq<Parsed>)
    requires ci < |ss| && WellFormed(ss[ci])
    requires ps == Parse(section, Tagged(ToUpper(ss[ci].ctin), ss[ci].docs.value))
    ensures |AllDocs(ss[..ci + 1])| == |AllDocs(ss[..ci])| + |ps|
    ensures Entries(Parse(section, AllDocs(ss[..ci + 1]))) == Entries(Parse(section, AllDocs(ss[..ci]))) + Entries(ps)
    ensures RejectsOf(section, ss[..ci + 1]) == RejectsOf(section, ss[..ci]) + Refusals(ps, |AllDocs(ss[..ci])|)
    ensures Aborts(Parse(section, AllDocs(ss[..ci + 1]))) <==> Aborts(Parse(section, AllDocs(ss[..ci]))) || Aborts(ps)
  {
    assert ss[..ci + 1][..ci] == ss[..ci];
    var a, b := AllDocs(ss[..ci]), Tagged(ToUpper(ss[ci].ctin), ss[ci].docs.value);
    ParseConcat(section, a, b);
    GatherConcat(EntryList, Parse(section, a), ps);
    AbortsConcat(Parse(section, a), ps);
  }

  /** What aborts among the first blocks aborts the section. */
  lemma {:induction false} AbortsEarly(section: Section, ss: seq<Supplier>, n: nat)
    requires n <= |ss| && Aborts(Parse(section, AllDocs(ss[..n])))
    ensures Aborts(Parse(section, AllDocs(ss)))
    decreases |ss| - n
  {
    if n == |ss| {
      assert ss[..n] == ss;
    } else {
      if WellFormed(ss[n]) {
        TakeBlock(section, ss, n, Parse(section, Tagged(ToUpper(ss[n].ctin), ss[n].docs.value)));
      } else {
        SkipBlock(section, ss, n);
      }
      AbortsEarly(section, ss, n + 1);
    }
  }

  lemma JudgedBlock(section: Section, ctin: string, judge: Doc -> Parsed, docs: seq<Doc>)
    requires forall d :: judge(d) == ParseDoc(section, ctin, d)
    ensures Judged(judge, docs) == Parse(section, Tagged(ctin, docs))
  {
  }

  /** One section: the outer loop. */
  method ParseSection(section: Section, ss: seq<Supplier>)
    returns (aborted: bool, entries: seq<Entry>, rejects: seq<Reject>, count: nat)
    ensures aborted <==> Aborts(Parse(section, AllDocs(ss)))
    ensures !aborted ==> entries == Entries(Parse(section, AllDocs(ss)))
    ensures !aborted ==> rejects == RejectsOf(section, ss)
    ensures !aborted ==> count == |AllDocs(ss)|
  {
    aborted, entries, rejects, count := false, [], [], 0;
    for ci := 0 to |ss|
      invariant entries == Entries(Parse(section, AllDocs(ss[..ci])))
      invariant rejects == RejectsOf(section, ss[..ci])
      invariant count == |AllDocs(ss[..ci])|
      invariant !Aborts(Parse(section, AllDocs(ss[..ci])))
    {
      var supplier := ss[ci];
      var ctin := ToUpper(supplier.ctin);
      if ctin == "" || supplier.docs.None? {
        SkipBlock(section, ss, ci);
        rejects := rejects + [Reject(Schema, ci)];
        continue;
      }
      var judge := (d: Doc) => ParseDoc(section, ctin, d);
      JudgedBlock(section, ctin, judge, supplier.docs.value);
      TakeBlock(section, ss, ci, Judged(judge, supplier.docs.value));
      var failed, more, refused, total := ParseBlock(judge, supplier.docs.value, count);
      if failed {
        AbortsEarly(section, ss, ci + 1);
        return true, entries, rejects, count;
      }
      entries := entries + more;
      rejects := rejects + refused;
      count := total;
    }
    assert ss[..|ss|] == ss;
  }

  // ----- the document -----

  predicate PoisonsSome(section: Section, ss: seq<Supplier>) {
    exists i :: 0 <= i < |AllDocs(ss)| && Poisons(section, AllDocs(ss)[i].doc)
  }

  lemma SectionAbortsExactly(section: Section, ss: seq<Supplier>)
    ensures Aborts(Parse(section, AllDocs(ss))) <==> PoisonsSome(section, ss)
  {
    var docs := AllDocs(ss);
    forall i | 0 <= i < |docs|
      ensures Parse(section, docs)[i].Aborted? <==> Poisons(section, docs[i].doc)
    {
      AbortsExactly(section, docs[i].ctin, docs[i].doc);
    }
  }

  /** Every other input is conserved: entries and rejects together are the documents and the malformed blocks. */
  lemma SectionConserves(section: Section, ss: seq<Supplier>)
    requires !PoisonsSome(section, ss)
    ensures |Entries(Parse(section, AllDocs(ss)))| + |RejectsOf(section, ss)| == |AllDocs(ss)| + MalformedBlocks(ss)
  {
    SectionAbortsExactly(section, ss);
    NothingLost(Parse(section, AllDocs(ss)), 0);
    RejectsCount(section, ss);
  }

  /** Aborts exactly when some document of either section poisons the parse, and then nothing is returned;
      otherwise nothing is lost. */
  method ParseGstr2b(b2b: seq<Supplier>, cdnr: seq<Supplier>) returns (r: Outcome<ParseResult>)
    ensures r.InvalidOperation? <==> PoisonsSome(B2b, b2b) || PoisonsSome(Cdnr, cdnr)
    ensures !r.ValueError?
    ensures r.Got? ==>
      var p := r.value;
      p.entries == Entries(Parse(B2b, AllDocs(b2b))) + Entries(Parse(Cdnr, AllDocs(cdnr))) &&
      p.rejects == RejectsOf(B2b, b2b) + RejectsOf(Cdnr, cdnr) &&
      p.ctinCount == |b2b| && p.invoiceCount == |AllDocs(b2b)| && p.noteCount == |AllDocs(cdnr)| &&
      |p.entries| + |p.rejects| == p.invoiceCount + p.noteCount + MalformedBlocks(b2b) + MalformedBlocks(cdnr)
    ensures r.Got? ==> NotesFrom(r.value.entries, |Entries(Parse(B2b, AllDocs(b2b)))|)
  {
    SectionAbortsExactly(B2b, b2b);
    SectionAbortsExactly(Cdnr, cdnr);
    var failed, entries, rejects, invoices := ParseSection(B2b, b2b);
    if failed {
      return InvalidOperation;
    }
    var noteFailed, noteEntries, noteRejects, notes := ParseSection(Cdnr, cdnr);
    if noteFailed {
      return InvalidOperation;
    }
    SectionConserves(B2b, b2b);
    SectionConserves(Cdnr, cdnr);
    NoteTypes(B2b, AllDocs(b2b));
    NoteTypes(Cdnr, AllDocs(cdnr));
    NotesFollow(entries, noteEntries);
    r := Got(ParseResult(entries + noteEntries, rejects + noteRejects, |b2b|, invoices, notes));
  }

  /** The entries with a note type are those from position `n` on. */
  predicate NotesFrom(entries: seq<Entry>, n: nat) {
    forall i :: 0 <= i < |entries| ==> (entries[i].note.Some? <==> i >= n)
  }

  lemma NotesFollow(invoices: seq<Entry>, notes: seq<Entry>)
    requires forall e :: e in invoices ==> e.note.None?
    requires forall e :: e in notes ==> e.note.Some?
    ensures NotesFrom(invoices + notes, |invoices|)
  {
  }
}
