/**
 * The invoice line editor: how a line's GST is split between central, state and integrated tax
 * (sections 7 and 8 of the IGST Act 2017), and how the header is kept equal to its lines by
 * adding, editing and deleting inside transactions, any statement of which may fail.
 */
module Invoices {
  import opened Common

  // ------------------------------------------------------------- tables

  datatype Form = Form(hsn: string, description: string, unit: string, quantity: real, rate: real)

  datatype Rates = Rates(cgst: real, sgst: real, igst: real)

  datatype Line = Line(
    id: string, tenant: string, invoice: string, form: Form, rates: Rates,
    taxable: real, cgst: real, sgst: real, igst: real, total: real)

  datatype Totals = Totals(subtotal: real, tax: real, cgst: real, sgst: real, igst: real, total: real)

  /** customerGst is absent when the customer row is; an empty one stands for a missing number. */
  datatype Header = Header(tenant: string, customerGst: Option<string>, totals: Totals)

  datatype Books = Books(lines: seq<Line>, headers: map<string, Header>)

  /** The tax configuration: rates per HSN/SAC code, and the company's own state when set. */
  datatype TaxConfig = TaxConfig(hsn: map<string, real>, companyState: Option<string>)

  datatype Refusal = UnknownHsn | LookupFailed | StatementFailed

  datatype Result<T> = Ok(value: T) | Err(why: Refusal)

  // ------------------------------------------------------------- rate and place of supply

  const DEFAULT_RATE := 18.0
  const DEFAULT_STATE := "27"

  /** The rate of a code; 18 only when no code was given. */
  function GstRate(c: TaxConfig, hsn: string): Option<real> {
    if hsn == "" then Some(DEFAULT_RATE) else if hsn in c.hsn then Some(c.hsn[hsn]) else None
  }

  function SupplierState(c: TaxConfig): string {
    if c.companyState.Some? && c.companyState.value != "" then c.companyState.value else DEFAULT_STATE
  }

  /** A customer without a usable GST number counts as local. */
  predicate WithinState(c: TaxConfig, customerGst: string) {
    |customerGst| < 2 || customerGst[..2] == SupplierState(c)
  }

  /** The customer is local: its GST number is missing, or begins with the company's state, 27 when unset. */
  predicate Local(c: TaxConfig, gstNumber: string) {
    |gstNumber| < 2 ||
    match c.companyState
    case None => gstNumber[0] == '2' && gstNumber[1] == '7'
    case Some(home) => if home == "" then gstNumber[0] == '2' && gstNumber[1] == '7' else gstNumber[..2] == home
  }

  lemma LocalIsWithinState(c: TaxConfig, gstNumber: string)
    ensures Local(c, gstNumber) <==> WithinState(c, gstNumber)
  {
    assert |gstNumber| >= 2 ==> gstNumber[..2] == [gstNumber[0], gstNumber[1]];
    assert |gstNumber| >= 2 ==> gstNumber[..2][0] == gstNumber[0] && gstNumber[..2][1] == gstNumber[1];
    assert "27" == ['2', '7'];
  }

  /** Fails closed: an unknown code and a missing invoice or customer are errors. */
  function ResolveLineGst(c: TaxConfig, headers: map<string, Header>, tenant: string, invoice: string, hsn: string, reads_: bool): Result<Rates> {
    match GstRate(c, hsn)
    case None => Err(UnknownHsn)
    case Some(rate) =>
      if !reads_ || invoice !in headers || headers[invoice].tenant != tenant || headers[invoice].customerGst.None? then Err(LookupFailed)
      else if WithinState(c, headers[invoice].customerGst.value) then Ok(Rates(rate / 2.0, rate / 2.0, 0.0))
      else Ok(Rates(0.0, 0.0, rate))
  }

  function Percent(taxable: real, rate: real): real {
    taxable * (rate / 100.0)
  }

  /** A line as both Add and Edit write it. */
  function LineOf(id: string, tenant: string, invoice: string, f: Form, r: Rates): Line {
    var taxable := f.quantity * f.rate;
    var split := r.cgst > 0.0 || r.sgst > 0.0;
    var cgst := if split then Percent(taxable, r.cgst) else 0.0;
    var sgst := if split then Percent(taxable, r.sgst) else 0.0;
    var igst := if !split && r.igst > 0.0 then Percent(taxable, r.igst) else 0.0;
    Line(id, tenant, invoice, f, r, taxable, cgst, sgst, igst, taxable + cgst + sgst + igst)
  }

  function TaxOf(l: Line): real {
    l.cgst + l.sgst + l.igst
  }

  lemma PercentHalves(taxable: real, rate: real)
    ensures Percent(taxable, rate / 2.0) + Percent(taxable, rate / 2.0) == Percent(taxable, rate)
    ensures rate == 0.0 ==> Percent(taxable, rate) == 0.0
  {
    assert (rate / 2.0) / 100.0 + (rate / 2.0) / 100.0 == rate / 100.0;
    var half := (rate / 2.0) / 100.0;
    assert taxable * half + taxable * half == taxable * (half + half);
  }

  lemma PercentZero(taxable: real, rate: real)
    ensures Percent(taxable, rate) == 0.0 <==> taxable == 0.0 || rate == 0.0
  {
    var x := rate / 100.0;
    assert x == 0.0 <==> rate == 0.0;
    if taxable * x == 0.0 && x != 0.0 {
      assert taxable == taxable * x / x;
    }
  }

  /** The whole tax of a line is its rate applied to the taxable value, whichever way it is split,
      exactly when the configured rate is not negative or nothing is taxable; a negative rate
      yields no tax at all. */
  lemma TaxIsRateTimesTaxable(c: TaxConfig, headers: map<string, Header>, id: string, tenant: string, invoice: string, f: Form)
    requires ResolveLineGst(c, headers, tenant, invoice, f.hsn, true).Ok?
    ensures var rates := ResolveLineGst(c, headers, tenant, invoice, f.hsn, true).value;
      var l, rate := LineOf(id, tenant, invoice, f, rates), GstRate(c, f.hsn).value;
      && (TaxOf(l) == Percent(l.taxable, rate) <==> rate >= 0.0 || l.taxable == 0.0)
      && (rate < 0.0 ==> TaxOf(l) == 0.0)
  {
    hide Percent, WithinState;
    var rate := GstRate(c, f.hsn).value;
    var rates := ResolveLineGst(c, headers, tenant, invoice, f.hsn, true).value;
    var l := LineOf(id, tenant, invoice, f, rates);
    PercentHalves(l.taxable, rate);
    PercentZero(l.taxable, rate);
  }

  /** Within a state the tax is half central, half state; across states it is all integrated. */
  lemma SplitFollowsPlaceOfSupply(c: TaxConfig, headers: map<string, Header>, id: string, tenant: string, invoice: string, f: Form)
    requires ResolveLineGst(c, headers, tenant, invoice, f.hsn, true).Ok?
    ensures var rates := ResolveLineGst(c, headers, tenant, invoice, f.hsn, true).value;
      var l := LineOf(id, tenant, invoice, f, rates);
      && l.cgst == l.sgst
      && (if Local(c, headers[invoice].customerGst.value) then l.igst == 0.0 && l.cgst + l.sgst == TaxOf(l)
          else l.cgst == 0.0 && l.igst == TaxOf(l))
  {
    hide Percent, WithinState, Local;
    LocalIsWithinState(c, headers[invoice].customerGst.value);
  }

  // ------------------------------------------------------------- totals

  predicate Belongs(l: Line, tenant: string, invoice: string) {
    l.invoice == invoice && l.tenant == tenant
  }

  function Plus(a: Totals, l: Line): Totals {
    Totals(a.subtotal + l.taxable, a.tax + l.cgst + l.sgst + l.igst, a.cgst + l.cgst, a.sgst + l.sgst, a.igst + l.igst, a.total + l.total)
  }

  const NOTHING := Totals(0.0, 0.0, 0.0, 0.0, 0.0, 0.0)

  /** The totals of an invoice's lines. */
  function Sum(lines: seq<Line>, tenant: string, invoice: string): Totals {
    if lines == [] then NOTHING else
      var before := Sum(lines[..|lines| - 1], tenant, invoice);
      if Belongs(lines[|lines| - 1], tenant, invoice) then Plus(before, lines[|lines| - 1]) else before
  }

  function Column(lines: seq<Line>, tenant: string, invoice: string, value: Line -> real): real {
    if lines == [] then 0.0 else
      Column(lines[..|lines| - 1], tenant, invoice, value)
      + if Belongs(lines[|lines| - 1], tenant, invoice) then value(lines[|lines| - 1]) else 0.0
  }

  /** The header row recomputed as the database does it: one sum per column, the tax added up from three of them. */
  function Aggregated(lines: seq<Line>, tenant: string, invoice: string): Totals {
    var cgst := Column(lines, tenant, invoice, (l: Line) => l.cgst);
    var sgst := Column(lines, tenant, invoice, (l: Line) => l.sgst);
    var igst := Column(lines, tenant, invoice, (l: Line) => l.igst);
    Totals(Column(lines, tenant, invoice, (l: Line) => l.taxable), cgst + sgst + igst, cgst, sgst, igst,
           Column(lines, tenant, invoice, (l: Line) => l.total))
  }

  function Recalculated(b: Books, tenant: string, invoice: string): Books {
    if invoice in b.headers && b.headers[invoice].tenant == tenant
    then b.(headers := b.headers[invoice := b.headers[invoice].(totals := Aggregated(b.lines, tenant, invoice))])
    else b
  }

  lemma {:induction false} AggregatedIsSum(lines: seq<Line>, tenant: string, invoice: string)
    ensures Aggregated(lines, tenant, invoice) == Sum(lines, tenant, invoice)
  {
    if lines != [] { AggregatedIsSum(lines[..|lines| - 1], tenant, invoice); }
  }

  /** A line these handlers wrote: its total is what is taxable plus the tax, halves equal. */
  predicate Coherent(l: Line) {
    l.total == l.taxable + TaxOf(l) && l.cgst == l.sgst
  }

  lemma {:induction false} CoherentTotals(lines: seq<Line>, tenant: string, invoice: string)
    requires forall i :: 0 <= i < |lines| && Belongs(lines[i], tenant, invoice) ==> Coherent(lines[i])
    ensures var t := Sum(lines, tenant, invoice);
      t.total == t.subtotal + t.tax && t.tax == t.cgst + t.sgst + t.igst && t.cgst == t.sgst
  {
    if lines != [] { CoherentTotals(lines[..|lines| - 1], tenant, invoice); }
  }

  // ------------------------------------------------------------- the three edits

  datatype Edit =
    | Add(tenant: string, invoice: string, id: string, form: Form)
    | Change(tenant: string, invoice: string, id: string, form: Form)
    | Delete(tenant: string, invoice: string, id: string)

  /** Which lookups and which statements of the transaction succeed. */
  datatype Faults = Faults(reads_: bool, begins: bool, writes: bool, sums: bool, updates: bool, commits: bool)

  predicate Works(f: Faults) {
    f.begins && f.writes && f.sums && f.updates && f.commits
  }

  /** Adding repairs a missing unit, quantity and rate; editing only the quantity. */
  function Cleaned(f: Form, adding: bool): Form {
    f.(unit := if adding && f.unit == "" then "NOS" else f.unit,
       quantity := if f.quantity <= 0.0 then 1.0 else f.quantity,
       rate := if adding && f.rate <= 0.0 then 1000.0 else f.rate)
  }

  function Replaced(lines: seq<Line>, l: Line): seq<Line> {
    seq(|lines|, i requires 0 <= i < |lines| =>
      if lines[i].id == l.id && Belongs(lines[i], l.tenant, l.invoice) then l else lines[i])
  }

  function Removed(lines: seq<Line>, tenant: string, invoice: string, id: string): seq<Line> {
    if lines == [] then [] else
      var l := lines[|lines| - 1];
      Removed(lines[..|lines| - 1], tenant, invoice, id) + if l.id == id && Belongs(l, tenant, invoice) then [] else [l]
  }

  /** The lines after the statement of an edit, or why it is refused before its transaction. */
  function LinesAfter(c: TaxConfig, b: Books, e: Edit, reads_: bool): Result<seq<Line>> {
    if e.Delete? then Ok(Removed(b.lines, e.tenant, e.invoice, e.id)) else
      var form := Cleaned(e.form, e.Add?);
      match ResolveLineGst(c, b.headers, e.tenant, e.invoice, form.hsn, reads_)
      case Err(why) => Err(why)
      case Ok(rates) =>
        var l := LineOf(e.id, e.tenant, e.invoice, form, rates);
        Ok(if e.Add? then b.lines + [l] else Replaced(b.lines, l))
  }

  /** A refused or failed edit leaves everything as it was. */
  function Apply(c: TaxConfig, b: Books, e: Edit, f: Faults): Result<Books> {
    match LinesAfter(c, b, e, f.reads_)
    case Err(why) => Err(why)
    case Ok(lines) => if Works(f) then Ok(Recalculated(b.(lines := lines), e.tenant, e.invoice)) else Err(StatementFailed)
  }

  function After(c: TaxConfig, b: Books, e: Edit, f: Faults): Books {
    match Apply(c, b, e, f) case Ok(next) => next case Err(_) => b
  }

  /** One edit, with the tax configuration in force at the time. */
  datatype Event = Event(c: TaxConfig, e: Edit, f: Faults)

  function Play(b: Books, events: seq<Event>): Books {
    if events == [] then b else
      var v := events[|events| - 1];
      After(v.c, Play(b, events[..|events| - 1]), v.e, v.f)
  }

  // ------------------------------------------------------------- the header follows the lines

  predicate Matches(b: Books, invoice: string) {
    invoice in b.headers ==> b.headers[invoice].totals == Sum(b.lines, b.headers[invoice].tenant, invoice)
  }

  lemma {:induction false} SumUnaffected(before: seq<Line>, after: seq<Line>, tenant: string, invoice: string)
    requires |before| == |after|
    requires forall i :: 0 <= i < |before| ==>
      before[i] == after[i] || (!Belongs(before[i], tenant, invoice) && !Belongs(after[i], tenant, invoice))
    ensures Sum(before, tenant, invoice) == Sum(after, tenant, invoice)
  {
    if before != [] { SumUnaffected(before[..|before| - 1], after[..|after| - 1], tenant, invoice); }
  }

  lemma SumNext(lines: seq<Line>, l: Line, tenant: string, invoice: string)
    ensures Sum(lines + [l], tenant, invoice) == if Belongs(l, tenant, invoice) then Plus(Sum(lines, tenant, invoice), l) else Sum(lines, tenant, invoice)
  {
    assert (lines + [l])[..|lines|] == lines;
  }

  lemma {:induction false} SumWithout(lines: seq<Line>, t: string, v: string, id: string, tenant: string, invoice: string)
    requires t != tenant || v != invoice
    ensures Sum(Removed(lines, t, v, id), tenant, invoice) == Sum(lines, tenant, invoice)
  {
    if lines != [] {
      var n := |lines| - 1;
      SumWithout(lines[..n], t, v, id, tenant, invoice);
      var rest := Removed(lines[..n], t, v, id);
      assert rest + [] == rest;
      SumNext(rest, lines[n], tenant, invoice);
      SumNext(lines[..n], lines[n], tenant, invoice);
      assert lines == lines[..n] + [lines[n]];
    }
  }

  /** The lines of any other invoice, or any other tenant, keep their sums. */
  lemma OthersKeepTheirSums(c: TaxConfig, b: Books, e: Edit, reads_: bool, tenant: string, invoice: string)
    requires LinesAfter(c, b, e, reads_).Ok? && (e.tenant != tenant || e.invoice != invoice)
    ensures Sum(LinesAfter(c, b, e, reads_).value, tenant, invoice) == Sum(b.lines, tenant, invoice)
  {
    hide ResolveLineGst, Cleaned, Plus;
    match e
    case Add(_, _, _, _) =>
      var lines := LinesAfter(c, b, e, reads_).value;
      assert lines[..|b.lines|] == b.lines;
    case Change(_, _, _, _) => SumUnaffected(b.lines, LinesAfter(c, b, e, reads_).value, tenant, invoice);
    case Delete(t, v, id) => SumWithout(b.lines, t, v, id, tenant, invoice);
  }

  /** A committed edit makes its invoice's header the totals of its lines; no edit, committed or
      not, disturbs a header that already is. */
  lemma EditsKeepHeaders(c: TaxConfig, b: Books, e: Edit, f: Faults, invoice: string)
    ensures Matches(b, invoice) ==> Matches(After(c, b, e, f), invoice)
    ensures Apply(c, b, e, f).Ok? && invoice == e.invoice && invoice in b.headers && b.headers[invoice].tenant == e.tenant ==>
      Matches(After(c, b, e, f), invoice)
  {
    hide LinesAfter, Sum, Aggregated;
    if Apply(c, b, e, f).Ok? && invoice in b.headers {
      var lines := LinesAfter(c, b, e, f.reads_).value;
      var tenant := b.headers[invoice].tenant;
      if e.tenant == tenant && e.invoice == invoice {
        AggregatedIsSum(lines, tenant, invoice);
      } else {
        OthersKeepTheirSums(c, b, e, f.reads_, tenant, invoice);
      }
    }
  }

  /** Once one edit of an invoice has committed, its header equals its lines after every later
      edit of any invoice, whatever fails. */
  lemma {:induction false} CommittedHeadersStayRight(b: Books, events: seq<Event>, k: nat, invoice: string)
    requires k < |events|
    requires var v := events[k]; var before := Play(b, events[..k]);
      Apply(v.c, before, v.e, v.f).Ok? && v.e.invoice == invoice && invoice in before.headers && before.headers[invoice].tenant == v.e.tenant
    ensures Matches(Play(b, events), invoice)
  {
    hide Apply, After, Matches;
    var n := |events| - 1;
    if k < n {
      assert events[..n][..k] == events[..k];
      CommittedHeadersStayRight(b, events[..n], k, invoice);
    }
    EditsKeepHeaders(events[n].c, Play(b, events[..n]), events[n].e, events[n].f, invoice);
  }

  ghost predicate AllCoherent(lines: seq<Line>) {
    forall i :: 0 <= i < |lines| ==> Coherent(lines[i])
  }

  lemma LineOfCoherent(c: TaxConfig, headers: map<string, Header>, e: Edit, form: Form, reads_: bool)
    requires ResolveLineGst(c, headers, e.tenant, e.invoice, form.hsn, reads_).Ok?
    ensures Coherent(LineOf(e.id, e.tenant, e.invoice, form, ResolveLineGst(c, headers, e.tenant, e.invoice, form.hsn, reads_).value))
  {
    hide Percent, WithinState;
  }

  lemma {:induction false} RemovedCoherent(lines: seq<Line>, tenant: string, invoice: string, id: string)
    requires AllCoherent(lines)
    ensures AllCoherent(Removed(lines, tenant, invoice, id))
  {
    if lines != [] { RemovedCoherent(lines[..|lines| - 1], tenant, invoice, id); }
  }

  lemma EditsKeepCoherent(c: TaxConfig, b: Books, e: Edit, f: Faults)
    requires AllCoherent(b.lines)
    ensures AllCoherent(After(c, b, e, f).lines)
  {
    hide ResolveLineGst, LineOf, Coherent, Aggregated, Cleaned;
    if e.Delete? {
      RemovedCoherent(b.lines, e.tenant, e.invoice, e.id);
    } else if LinesAfter(c, b, e, f.reads_).Ok? {
      LineOfCoherent(c, b.headers, e, Cleaned(e.form, e.Add?), f.reads_);
    }
  }

  /** The invoice law: on a ledger these handlers wrote, a header once recalculated has total =
      subtotal + tax, tax = central + state + integrated, and central = state, for ever after. */
  lemma {:induction false} InvoicesAddUp(headers: map<string, Header>, events: seq<Event>, k: nat, invoice: string)
    requires k < |events|
    requires var v := events[k]; var before := Play(Books([], headers), events[..k]);
      Apply(v.c, before, v.e, v.f).Ok? && v.e.invoice == invoice && invoice in before.headers && before.headers[invoice].tenant == v.e.tenant
    ensures var end := Play(Books([], headers), events);
      invoice in end.headers ==>
        var t := end.headers[invoice].totals;
        t.total == t.subtotal + t.tax && t.tax == t.cgst + t.sgst + t.igst && t.cgst == t.sgst
  {
    hide Apply, Play, Sum, Coherent;
    CommittedHeadersStayRight(Books([], headers), events, k, invoice);
    AlwaysCoherent(Books([], headers), events);
    var end := Play(Books([], headers), events);
    if invoice in end.headers { CoherentTotals(end.lines, end.headers[invoice].tenant, invoice); }
  }

  lemma {:induction false} AlwaysCoherent(b: Books, events: seq<Event>)
    requires AllCoherent(b.lines)
    ensures AllCoherent(Play(b, events).lines)
  {
    hide After, AllCoherent;
    if events != [] {
      AlwaysCoherent(b, events[..|events| - 1]);
      var v := events[|events| - 1];
      EditsKeepCoherent(v.c, Play(b, events[..|events| - 1]), v.e, v.f);
    }
  }

  // ------------------------------------------------------------- undoing an addition

  lemma {:induction false} RemovedAbsent(lines: seq<Line>, tenant: string, invoice: string, id: string)
    requires forall i :: 0 <= i < |lines| ==> lines[i].id != id
    ensures Removed(lines, tenant, invoice, id) == lines
  {
    if lines != [] { RemovedAbsent(lines[..|lines| - 1], tenant, invoice, id); }
  }

  /** Deleting the line just added restores the ledger, header included. */
  lemma DeleteUndoesAdd(c: TaxConfig, b: Books, e: Edit, f: Faults, g: Faults)
    requires e.Add? && Matches(b, e.invoice) && Apply(c, b, e, f).Ok? && Works(g)
    requires forall i :: 0 <= i < |b.lines| ==> b.lines[i].id != e.id
    ensures Apply(c, After(c, b, e, f), Delete(e.tenant, e.invoice, e.id), g) == Ok(b)
  {
    hide Sum, Aggregated, LineOf, ResolveLineGst, Cleaned;
    var added := LinesAfter(c, b, e, f.reads_).value;
    RemoveLast(b.lines, added, e.tenant, e.invoice, e.id) by {
      assert Belongs(added[|b.lines|], e.tenant, e.invoice) && added[|b.lines|].id == e.id by { LineKeys(c, b, e, f.reads_); }
    }
    AggregatedIsSum(b.lines, e.tenant, e.invoice);
    Resolvable(c, b.headers, e.tenant, e.invoice, Cleaned(e.form, true).hsn, f.reads_);
    var after := After(c, b, e, f);
    var back := After(c, after, Delete(e.tenant, e.invoice, e.id), g);
    assert back.headers == b.headers;
  }

  lemma Resolvable(c: TaxConfig, headers: map<string, Header>, tenant: string, invoice: string, hsn: string, reads_: bool)
    requires ResolveLineGst(c, headers, tenant, invoice, hsn, reads_).Ok?
    ensures invoice in headers && headers[invoice].tenant == tenant
  {
  }

  lemma LineKeys(c: TaxConfig, b: Books, e: Edit, reads_: bool)
    requires e.Add? && LinesAfter(c, b, e, reads_).Ok?
    ensures var l := LinesAfter(c, b, e, reads_).value[|b.lines|]; Belongs(l, e.tenant, e.invoice) && l.id == e.id
  {
    hide ResolveLineGst, Percent;
  }

  lemma RemoveLast(lines: seq<Line>, added: seq<Line>, tenant: string, invoice: string, id: string)
    requires |added| == |lines| + 1 && added[..|lines|] == lines
    requires Belongs(added[|lines|], tenant, invoice) && added[|lines|].id == id
    requires forall i :: 0 <= i < |lines| ==> lines[i].id != id
    ensures Removed(added, tenant, invoice, id) == lines
  {
    RemovedAbsent(lines, tenant, invoice, id);
  }

  // ------------------------------------------------------------- what the lines say

  /** The line for so many units at such a price, taxed at so much per cent. */
  predicate IsPriced(l: Line, quantity: real, rate: real, percent: real, local: bool) {
    && l.form.quantity == quantity && l.form.rate == rate && l.taxable == quantity * rate
    && l.rates == (if local then Rates(0.5 * percent, 0.5 * percent, 0.0) else Rates(0.0, 0.0, percent))
    && (percent <= 0.0 ==> l.cgst == l.sgst == l.igst == 0.0 && l.total == l.taxable)
    && (percent > 0.0 && local ==>
          200.0 * l.cgst == l.taxable * percent && 200.0 * l.sgst == l.taxable * percent && l.igst == 0.0
          && 100.0 * l.total == l.taxable * (100.0 + percent))
    && (percent > 0.0 && !local ==>
          l.cgst == l.sgst == 0.0 && 100.0 * l.igst == l.taxable * percent && 100.0 * l.total == l.taxable * (100.0 + percent))
  }

  /** The percentage and place a line of this invoice is taxed by: 18 without a code. */
  predicate IsTaxedFor(c: TaxConfig, b: Books, e: Edit, l: Line, quantity: real, rate: real)
    requires !e.Delete?
  {
    && e.invoice in b.headers && b.headers[e.invoice].tenant == e.tenant && b.headers[e.invoice].customerGst.Some?
    && (e.form.hsn != "" ==> e.form.hsn in c.hsn)
    && l.id == e.id && l.tenant == e.tenant && l.invoice == e.invoice
    && l.form.hsn == e.form.hsn && l.form.description == e.form.description
    && IsPriced(l, quantity, rate, if e.form.hsn == "" then 18.0 else c.hsn[e.form.hsn], Local(c, b.headers[e.invoice].customerGst.value))
  }

  lemma SmallProducts(t: real, p: real)
    ensures 200.0 * (t * ((p / 2.0) / 100.0)) == t * p && 100.0 * (t * (p / 100.0)) == t * p
    ensures t * (100.0 + p) == 100.0 * t + t * p
  {
    var h, w := (p / 2.0) / 100.0, p / 100.0;
    assert 200.0 * h == p && 100.0 * w == p;
    assert 200.0 * (t * h) == t * (200.0 * h) && 100.0 * (t * w) == t * (100.0 * w);
  }

  lemma LineIsPriced(id: string, tenant: string, invoice: string, f: Form, percent: real, local: bool)
    ensures IsPriced(LineOf(id, tenant, invoice, f, if local then Rates(percent / 2.0, percent / 2.0, 0.0) else Rates(0.0, 0.0, percent)),
                     f.quantity, f.rate, percent, local)
  {
    SmallProducts(f.quantity * f.rate, percent);
  }

  /** The line an edit writes, and when the lookups let it. */
  lemma WrittenLine(c: TaxConfig, b: Books, e: Edit, reads_: bool)
    requires !e.Delete?
    ensures var form := Cleaned(e.form, e.Add?); var r := ResolveLineGst(c, b.headers, e.tenant, e.invoice, form.hsn, reads_);
      && (r.Ok? ==> IsTaxedFor(c, b, e, LineOf(e.id, e.tenant, e.invoice, form, r.value), form.quantity, form.rate))
      && (r.Ok? <==>
            && reads_ && (e.form.hsn == "" || e.form.hsn in c.hsn)
            && e.invoice in b.headers && b.headers[e.invoice].tenant == e.tenant && b.headers[e.invoice].customerGst.Some?)
      && (r.Err? && reads_ ==> (r.why == UnknownHsn <==> e.form.hsn != "" && e.form.hsn !in c.hsn))
  {
    hide LineOf, IsPriced, WithinState, Local;
    var form := Cleaned(e.form, e.Add?);
    var r := ResolveLineGst(c, b.headers, e.tenant, e.invoice, form.hsn, reads_);
    if r.Ok? {
      var gst := b.headers[e.invoice].customerGst.value;
      LocalIsWithinState(c, gst);
      LineIsPriced(e.id, e.tenant, e.invoice, form, if form.hsn == "" then 18.0 else c.hsn[form.hsn], Local(c, gst));
      LineOfForm(e.id, e.tenant, e.invoice, form, r.value);
    }
  }

  lemma LineOfForm(id: string, tenant: string, invoice: string, f: Form, r: Rates)
    ensures var l := LineOf(id, tenant, invoice, f, r); l.id == id && l.tenant == tenant && l.invoice == invoice && l.form == f
  {
    hide Percent;
  }

  /** A committed Add appends one line for the quantity, one when not above zero, at the rate, 1000
      when not above zero, priced and taxed as the code and the two states demand; it commits exactly
      when code, invoice and customer are found and nothing fails. */
  lemma AddWritesTheLine(c: TaxConfig, b: Books, e: Edit, f: Faults)
    requires e.Add?
    ensures Apply(c, b, e, f).Ok? <==>
      && f.reads_ && f.begins && f.writes && f.sums && f.updates && f.commits && (e.form.hsn == "" || e.form.hsn in c.hsn)
      && e.invoice in b.headers && b.headers[e.invoice].tenant == e.tenant && b.headers[e.invoice].customerGst.Some?
    ensures Apply(c, b, e, f).Ok? ==>
      var lines := Apply(c, b, e, f).value.lines; var last := |b.lines|;
      && |lines| == last + 1 && lines[..last] == b.lines
      && IsTaxedFor(c, b, e, lines[last],
                    if e.form.quantity > 0.0 then e.form.quantity else 1.0, if e.form.rate > 0.0 then e.form.rate else 1000.0)
      && lines[last].form.unit == (if e.form.unit == "" then "NOS" else e.form.unit)
  {
    hide ResolveLineGst, LineOf, IsTaxedFor, Aggregated;
    WrittenLine(c, b, e, f.reads_);
    if Apply(c, b, e, f).Ok? {
      var form := Cleaned(e.form, true);
      LineOfForm(e.id, e.tenant, e.invoice, form, ResolveLineGst(c, b.headers, e.tenant, e.invoice, form.hsn, f.reads_).value);
    }
  }

  /** A committed Edit turns exactly the lines with its id, invoice and tenant into such a line, with the
      rate as given, and leaves every other line as it was. */
  lemma EditWritesTheLine(c: TaxConfig, b: Books, e: Edit, f: Faults)
    requires e.Change? && Apply(c, b, e, f).Ok?
    ensures var lines := Apply(c, b, e, f).value.lines;
      && |lines| == |b.lines|
      && forall k :: 0 <= k < |lines| ==>
           if b.lines[k].id == e.id && b.lines[k].invoice == e.invoice && b.lines[k].tenant == e.tenant then
             && IsTaxedFor(c, b, e, lines[k], if e.form.quantity > 0.0 then e.form.quantity else 1.0, e.form.rate)
             && lines[k].form.unit == e.form.unit
           else lines[k] == b.lines[k]
  {
    hide ResolveLineGst, LineOf, IsTaxedFor, Aggregated;
    WrittenLine(c, b, e, f.reads_);
    var form := Cleaned(e.form, false);
    LineOfForm(e.id, e.tenant, e.invoice, form, ResolveLineGst(c, b.headers, e.tenant, e.invoice, form.hsn, f.reads_).value);
  }

  /** A committed Delete keeps exactly the lines without its id, invoice and tenant, in order. */
  lemma {:induction false} DeleteKeepsTheOthers(lines: seq<Line>, tenant: string, invoice: string, id: string, l: Line)
    ensures multiset(Removed(lines, tenant, invoice, id))[l] ==
      if l.id == id && l.invoice == invoice && l.tenant == tenant then 0 else multiset(lines)[l]
  {
    if lines != [] {
      var before := lines[..|lines| - 1];
      DeleteKeepsTheOthers(before, tenant, invoice, id, l);
      assert lines == before + [lines[|lines| - 1]];
      var rest := Removed(before, tenant, invoice, id);
      assert rest + [] == rest;
    }
  }

  // ------------------------------------------------------------- the handlers

  class InvoiceHandlers {
    var lines: seq<Line>
    var headers: map<string, Header>

    constructor (existing: map<string, Header>)
      ensures Tables() == Books([], existing)
    {
      lines, headers := [], existing;
    }

    function Tables(): Books
      reads this
    {
      Books(lines, headers)
    }

    /** Adds a line with a fresh id. A refusal or a failing statement rolls everything back. */
    method AddLineItem(c: TaxConfig, tenant: string, invoice: string, id: string, form: Form, f: Faults) returns (r: Result<()>)
      modifies this
      ensures Tables() == After(c, old(Tables()), Add(tenant, invoice, id, form), f)
      ensures r.Ok? <==> Apply(c, old(Tables()), Add(tenant, invoice, id, form), f).Ok?
      ensures r.Ok? ==> |lines| == |old(lines)| + 1 && lines[..|old(lines)|] == old(lines) && Matches(Tables(), invoice)
      ensures r.Err? ==> Tables() == old(Tables())
    {
      hide ResolveLineGst, Sum, Aggregated, LineOf;
      EditsKeepHeaders(c, Tables(), Add(tenant, invoice, id, form), f, invoice);
      var clean := form;
      if clean.unit == "" {
        clean := clean.(unit := "NOS");
      }
      if clean.quantity <= 0.0 {
        clean := clean.(quantity := 1.0);
      }
      if clean.rate <= 0.0 {
        clean := clean.(rate := 1000.0);
      }
      var rates := ResolveLineGst(c, headers, tenant, invoice, clean.hsn, f.reads_);
      if rates.Err? {
        return Err(rates.why);
      }
      Resolvable(c, headers, tenant, invoice, clean.hsn, f.reads_);
      if !f.begins || !f.writes {
        return Err(StatementFailed);
      }
      var inserted := lines + [LineOf(id, tenant, invoice, clean, rates.value)];
      r := RecalculateAndCommit(inserted, tenant, invoice, f);
    }

    /** Rewrites the line with the id, if the invoice and the tenant are its own; a rate not above
        zero is kept as it is. */
    method EditLineItem(c: TaxConfig, tenant: string, invoice: string, id: string, form: Form, f: Faults) returns (r: Result<()>)
      modifies this
      ensures Tables() == After(c, old(Tables()), Change(tenant, invoice, id, form), f)
      ensures r.Ok? <==> Apply(c, old(Tables()), Change(tenant, invoice, id, form), f).Ok?
      ensures r.Ok? ==> |lines| == |old(lines)| && Matches(Tables(), invoice)
      ensures r.Err? ==> Tables() == old(Tables())
    {
      hide ResolveLineGst, Sum, Aggregated, LineOf;
      EditsKeepHeaders(c, Tables(), Change(tenant, invoice, id, form), f, invoice);
      var clean := form;
      if clean.quantity <= 0.0 {
        clean := clean.(quantity := 1.0);
      }
      var rates := ResolveLineGst(c, headers, tenant, invoice, clean.hsn, f.reads_);
      if rates.Err? {
        return Err(rates.why);
      }
      Resolvable(c, headers, tenant, invoice, clean.hsn, f.reads_);
      if !f.begins || !f.writes {
        return Err(StatementFailed);
      }
      var changed := Replaced(lines, LineOf(id, tenant, invoice, clean, rates.value));
      r := RecalculateAndCommit(changed, tenant, invoice, f);
    }

    method DeleteLineItem(c: TaxConfig, tenant: string, invoice: string, id: string, f: Faults) returns (r: Result<()>)
      modifies this
      ensures Tables() == After(c, old(Tables()), Delete(tenant, invoice, id), f)
      ensures r.Ok? <==> Works(f)
      ensures r.Err? ==> Tables() == old(Tables())
    {
      hide Sum, Aggregated;
      if !f.begins || !f.writes {
        return Err(StatementFailed);
      }
      r := RecalculateAndCommit(Removed(lines, tenant, invoice, id), tenant, invoice, f);
    }

    /** The end of each transaction: the header is rewritten and both tables change together or not at all. */
    method RecalculateAndCommit(changed: seq<Line>, tenant: string, invoice: string, f: Faults) returns (r: Result<()>)
      modifies this
      ensures var ok := f.sums && f.updates && f.commits;
        && r == (if ok then Ok(()) else Err(StatementFailed))
        && Tables() == if ok then Recalculated(Books(changed, old(headers)), tenant, invoice) else old(Tables())
    {
      if !f.sums {
        return Err(StatementFailed);
      }
      var totals := Aggregated(changed, tenant, invoice);
      var rewritten := headers;
      if invoice in headers && headers[invoice].tenant == tenant {
        rewritten := headers[invoice := headers[invoice].(totals := totals)];
      }
      if !f.updates || !f.commits {
        return Err(StatementFailed);
      }
      lines, headers := changed, rewritten;
      r := Ok(());
    }
  }
}
