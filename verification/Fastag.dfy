/**
 * FASTag reconciliation: toll transactions are imported, each is matched to the trip with the
 * nearest departure among those whose window contains it, and a driver expense is booked. Any
 * database write may fail, and the run goes on regardless.
 */
module Fastag {
  import opened Common

  const HOUR: int := 3600

  datatype Trip = Trip(id: string, driver: Option<string>, departure: int, arrival: int)

  /** A transaction as the provider reports it. */
  datatype Pulled = Pulled(id: string, tag: string, plaza: string, amount: real, at: int)

  /** A row of the transaction table. */
  datatype Txn = Txn(p: Pulled, reconciled: bool, trip: Option<string>, kharcha: Option<nat>)

  /** A driver expense; `row` is the transaction it was created for, known here but not in the table. */
  datatype Expense = Expense(row: nat, trip: string, driver: string, amount: real, description: string)

  /** The two tables; the number of an expense stands for its id. */
  datatype Books = Books(txns: seq<Txn>, expenses: seq<Expense>)

  // ------------------------------------------------------------- the nearest trip

  predicate InWindow(t: Trip, at: int) {
    t.departure - HOUR <= at <= t.arrival + HOUR
  }

  function Delta(t: Trip, at: int): nat {
    if at < t.departure then t.departure - at else at - t.departure
  }

  /** The trip held after looking at a sequence of trips: a later one replaces it only when strictly nearer. */
  function Nearest(trips: seq<Trip>, at: int): (r: Option<nat>)
    ensures r.Some? ==> r.value < |trips|
  {
    if trips == [] then None else
      var best := Nearest(trips[..|trips| - 1], at);
      var t := trips[|trips| - 1];
      if InWindow(t, at) && (best.None? || Delta(t, at) < Delta(trips[best.value], at))
      then Some(|trips| - 1) else best
  }

  /** At most an hour before the departure and at most an hour after the arrival. */
  predicate Covers(t: Trip, at: int) {
    t.departure - at <= 3600 && at - t.arrival <= 3600
  }

  /** The first departure is no further from the time than the second. */
  predicate NoFurther(t: Trip, other: Trip, at: int) {
    var d, e := at - t.departure, at - other.departure;
    (-e <= d <= e) || (e <= d <= -e)
  }

  /** The nearest departure among the trips whose window contains the time, the first such trip on ties. */
  ghost predicate IsNearest(trips: seq<Trip>, at: int, r: Option<nat>) {
    match r
    case None => forall j :: 0 <= j < |trips| ==> !Covers(trips[j], at)
    case Some(k) =>
      && k < |trips| && Covers(trips[k], at)
      && forall j :: 0 <= j < |trips| && Covers(trips[j], at) ==>
           NoFurther(trips[k], trips[j], at) && (NoFurther(trips[j], trips[k], at) ==> k <= j)
  }

  /** The greedy scan finds the nearest trip, and only one answer is the nearest. */
  lemma {:induction false} GreedyIsNearest(trips: seq<Trip>, at: int, r: Option<nat>)
    ensures IsNearest(trips, at, r) <==> r == Nearest(trips, at)
  {
    NearestIsNearest(trips, at);
  }

  lemma {:induction false} NearestIsNearest(trips: seq<Trip>, at: int)
    ensures IsNearest(trips, at, Nearest(trips, at))
  {
    if trips != [] {
      var before := trips[..|trips| - 1];
      NearestIsNearest(before, at);
      assert forall j :: 0 <= j < |before| ==> before[j] == trips[j];
    }
  }

  method MatchTrip(trips: seq<Trip>, at: int) returns (best: Option<nat>)
    ensures IsNearest(trips, at, best)
  {
    best := None;
    var minDelta := 0;
    for i := 0 to |trips|
      invariant best.Some? ==> best.value < i && minDelta == Delta(trips[best.value], at)
      invariant IsNearest(trips[..i], at, best)
    {
      var trip := trips[i];
      if trip.departure - HOUR <= at && at <= trip.arrival + HOUR {
        var delta := if at < trip.departure then trip.departure - at else at - trip.departure;
        if best.None? || delta < minDelta {
          minDelta := delta;
          best := Some(i);
        }
      }
    }
    assert trips[..|trips|] == trips;
  }

  // ------------------------------------------------------------- what happens to the books

  /** Which writes of one match take effect, and whether the insert reports back. */
  datatype Fault = Fault(inserts: bool, reports: bool, updates: bool)

  datatype Event =
    | Arrive(p: Pulled, probes: bool, inserts: bool)
    | Settle(row: nat, auto: bool, trips: seq<Trip>, fault: Fault)

  predicate Known(txns: seq<Txn>, p: Pulled) {
    exists i :: 0 <= i < |txns| && txns[i].p.tag == p.tag && txns[i].p.at == p.at && txns[i].p.amount == p.amount
  }

  predicate IdTaken(txns: seq<Txn>, id: string) {
    exists i :: 0 <= i < |txns| && txns[i].p.id == id
  }

  /** A pulled transaction with no id is given a fresh one and never clashes. */
  function Imported(b: Books, p: Pulled, probes: bool, inserts: bool): Books {
    if (probes && Known(b.txns, p)) || !inserts || (p.id != "" && IdTaken(b.txns, p.id)) then b
    else b.(txns := b.txns + [Txn(p, false, None, None)])
  }

  function DriverOf(t: Trip): string {
    if t.driver.Some? then t.driver.value else ""
  }

  function ExpenseFor(row: nat, t: Trip, p: Pulled): Expense {
    Expense(row, t.id, DriverOf(t), p.amount,
            if p.plaza == "" then "FASTag Toll Plaza deduction" else "FASTag toll at " + p.plaza)
  }

  function Settled(b: Books, row: nat, auto: bool, t: Trip, f: Fault): Books
    requires row < |b.txns|
  {
    var booked := auto && f.inserts;
    Books(
      if f.updates
      then b.txns[row := Txn(b.txns[row].p, true, Some(t.id), if booked && f.reports then Some(|b.expenses|) else None)]
      else b.txns,
      if booked then b.expenses + [ExpenseFor(row, t, b.txns[row].p)] else b.expenses)
  }

  /** Only rows not yet reconciled are loaded, so a settled row is left alone. */
  function Apply(b: Books, e: Event): Books {
    match e
    case Arrive(p, probes, inserts) => Imported(b, p, probes, inserts)
    case Settle(row, auto, trips, fault) =>
      if row >= |b.txns| || b.txns[row].reconciled then b else
        var best := Nearest(trips, b.txns[row].p.at);
        if best.None? then b else Settled(b, row, auto, trips[best.value], fault)
  }

  function Play(b: Books, events: seq<Event>): Books {
    if events == [] then b else Apply(Play(b, events[..|events| - 1]), events[|events| - 1])
  }

  const EMPTY := Books([], [])

  lemma {:induction false} PlayConcat(b: Books, first: seq<Event>, rest: seq<Event>)
    ensures Play(b, first + rest) == Play(Play(b, first), rest)
  {
    if rest == [] {
      assert first + rest == first;
    } else {
      assert (first + rest)[..|first + rest| - 1] == first + rest[..|rest| - 1];
      PlayConcat(b, first, rest[..|rest| - 1]);
    }
  }

  /** Settling an open row gives it to the nearest trip and books the toll to that trip's driver,
      as far as the writes take effect; a row in no trip's window stays as it is. */
  lemma SettlingFollowsNearest(b: Books, row: nat, auto: bool, trips: seq<Trip>, f: Fault, best: Option<nat>)
    requires row < |b.txns| && !b.txns[row].reconciled && IsNearest(trips, b.txns[row].p.at, best)
    ensures var end := Apply(b, Settle(row, auto, trips, f));
      && |end.txns| == |b.txns| && (forall r: nat :: r < |b.txns| && r != row ==> end.txns[r] == b.txns[r])
      && (best.None? ==> end == b)
      && (best.Some? ==>
            var t := trips[best.value];
            && (end.txns[row].reconciled <==> f.updates)
            && (f.updates ==> end.txns[row].trip == Some(t.id))
            && (if auto && f.inserts then
                  && |end.expenses| == |b.expenses| + 1 && end.expenses[..|b.expenses|] == b.expenses
                  && var e := end.expenses[|b.expenses|];
                     && e.row == row && e.trip == t.id && e.amount == b.txns[row].p.amount
                     && e.driver == (match t.driver case Some(d) => d case None => "")
                     && e.description == (if |b.txns[row].p.plaza| > 0 then "FASTag toll at " + b.txns[row].p.plaza
                                          else "FASTag Toll Plaza deduction")
                else end.expenses == b.expenses))
  {
    GreedyIsNearest(trips, b.txns[row].p.at, best);
    hide Nearest, IsNearest;
  }

  // ------------------------------------------------------------- conservation

  function Spent(es: seq<Expense>): real {
    if es == [] then 0.0 else Spent(es[..|es| - 1]) + es[|es| - 1].amount
  }

  /** The tolls of the rows that name an expense. */
  function Linked(txns: seq<Txn>): real {
    if txns == [] then 0.0 else
      Linked(txns[..|txns| - 1]) + if txns[|txns| - 1].kharcha.Some? then txns[|txns| - 1].p.amount else 0.0
  }

  /** The tolls of the reconciled rows. */
  function Reconciled(txns: seq<Txn>): real {
    if txns == [] then 0.0 else
      Reconciled(txns[..|txns| - 1]) + if txns[|txns| - 1].reconciled then txns[|txns| - 1].p.amount else 0.0
  }

  predicate Named(txns: seq<Txn>, es: seq<Expense>, k: nat)
    requires k < |es|
  {
    es[k].row < |txns| && txns[es[k].row].kharcha == Some(k)
  }

  /** The expenses no row names. */
  function Stray(txns: seq<Txn>, es: seq<Expense>): real {
    if es == [] then 0.0 else
      Stray(txns, es[..|es| - 1]) + if Named(txns, es, |es| - 1) then 0.0 else es[|es| - 1].amount
  }

  /** A row that names an expense is reconciled, and the expense was booked for that row, its toll and its trip. */
  predicate RowHolds(b: Books, r: nat)
    requires r < |b.txns|
  {
    b.txns[r].kharcha.Some? ==>
      var k := b.txns[r].kharcha.value;
      b.txns[r].reconciled && k < |b.expenses| && b.expenses[k].row == r && b.expenses[k].amount == b.txns[r].p.amount
      && b.txns[r].trip == Some(b.expenses[k].trip)
  }

  ghost predicate Balanced(b: Books) {
    && (forall r: nat :: r < |b.txns| ==> RowHolds(b, r))
    && (forall k: nat :: k < |b.expenses| ==> b.expenses[k].row < |b.txns|)
    && Spent(b.expenses) == Linked(b.txns) + Stray(b.txns, b.expenses)
  }

  lemma {:induction false} RowUpdate(txns: seq<Txn>, r: nat, t: Txn)
    requires r < |txns| && t.p == txns[r].p && txns[r].kharcha.None? && !txns[r].reconciled
    ensures Linked(txns[r := t]) == Linked(txns) + if t.kharcha.Some? then t.p.amount else 0.0
    ensures Reconciled(txns[r := t]) == Reconciled(txns) + if t.reconciled then t.p.amount else 0.0
  {
    var n := |txns| - 1;
    if r < n {
      RowUpdate(txns[..n], r, t);
      assert txns[r := t][..n] == txns[..n][r := t];
    } else {
      assert txns[r := t][..n] == txns[..n];
    }
  }

  lemma {:induction false} StrayDependsOnNames(txns: seq<Txn>, other: seq<Txn>, es: seq<Expense>)
    requires forall k: nat :: k < |es| ==> (Named(txns, es, k) <==> Named(other, es, k))
    ensures Stray(txns, es) == Stray(other, es)
  {
    if es != [] {
      var before := es[..|es| - 1];
      forall k: nat | k < |before| ensures Named(txns, before, k) <==> Named(other, before, k) {
        assert Named(txns, es, k) <==> Named(other, es, k);
      }
      StrayDependsOnNames(txns, other, before);
    }
  }

  lemma ImportBalances(b: Books, p: Pulled)
    requires Balanced(b)
    ensures Balanced(b.(txns := b.txns + [Txn(p, false, None, None)]))
  {
    var more := b.txns + [Txn(p, false, None, None)];
    assert more[..|b.txns|] == b.txns;
    StrayDependsOnNames(b.txns, more, b.expenses);
    assert forall r: nat :: r < |b.txns| ==> RowHolds(b, r) && more[r] == b.txns[r];
  }

  lemma SettlingBalances(b: Books, row: nat, auto: bool, t: Trip, f: Fault)
    requires Balanced(b) && row < |b.txns| && !b.txns[row].reconciled
    ensures Balanced(Settled(b, row, auto, t, f))
  {
    hide ExpenseFor;
    assert RowHolds(b, row);
    var end := Settled(b, row, auto, t, f);
    forall r: nat | r < |end.txns| ensures RowHolds(end, r) {
      assert RowHolds(b, r);
      ExpenseAmount(row, t, b.txns[row].p);
    }
    ExpenseAmount(row, t, b.txns[row].p);
    if f.updates { RowUpdate(b.txns, row, end.txns[row]); }
    assert forall k: nat :: k < |b.expenses| ==> (Named(b.txns, b.expenses, k) <==> Named(end.txns, b.expenses, k));
    StrayDependsOnNames(b.txns, end.txns, b.expenses);
    if |end.expenses| > |b.expenses| {
      assert end.expenses[..|b.expenses|] == b.expenses;
    }
  }

  lemma ExpenseAmount(row: nat, t: Trip, p: Pulled)
    ensures ExpenseFor(row, t, p).amount == p.amount && ExpenseFor(row, t, p).row == row && ExpenseFor(row, t, p).trip == t.id
  {
  }

  lemma StepBalances(b: Books, e: Event)
    requires Balanced(b)
    ensures Balanced(Apply(b, e))
  {
    hide Balanced, Nearest, Settled, Known, IdTaken;
    match e
    case Arrive(p, _, _) => ImportBalances(b, p);
    case Settle(row, auto, trips, fault) =>
      if row < |b.txns| && !b.txns[row].reconciled {
        var best := Nearest(trips, b.txns[row].p.at);
        if best.Some? { SettlingBalances(b, row, auto, trips[best.value], fault); }
      }
  }

  /** Whatever writes fail, over any number of runs: the expenses total the tolls of the rows
      that name one plus the expenses no row names, and each named expense is the naming row's own. */
  lemma {:induction false} TollsAreConserved(events: seq<Event>)
    ensures Balanced(Play(EMPTY, events))
  {
    hide Apply, Balanced;
    if events == [] {
      assert Balanced(EMPTY) by { StartBalances(); }
    } else {
      TollsAreConserved(events[..|events| - 1]);
      StepBalances(Play(EMPTY, events[..|events| - 1]), events[|events| - 1]);
    }
  }

  lemma StartBalances()
    ensures Balanced(EMPTY)
  {
  }

  // ------------------------------------------------------------- how often one toll is charged

  function Charged(es: seq<Expense>, row: nat): nat {
    if es == [] then 0 else Charged(es[..|es| - 1], row) + if es[|es| - 1].row == row then 1 else 0
  }

  predicate UpdatesHold(e: Event) {
    e.Settle? ==> e.fault.updates
  }

  /** Every write of the event took effect and reported, and expenses were switched on. */
  predicate Faultless(e: Event) {
    e.Settle? ==> e.auto && e.fault == Fault(true, true, true)
  }

  /** A settlement charges its own row at most once more, and only while that row is open. */
  lemma StepCharges(b: Books, e: Event, row: nat)
    ensures Charged(Apply(b, e).expenses, row) ==
      Charged(b.expenses, row)
      + if |Apply(b, e).expenses| > |b.expenses| && e.Settle? && e.row == row then 1 else 0
    ensures |Apply(b, e).expenses| > |b.expenses| ==> e.Settle? && e.row < |b.txns| && !b.txns[e.row].reconciled
    ensures |Apply(b, e).expenses| > |b.expenses| && e.Settle? && e.fault.updates ==> Apply(b, e).txns[e.row].reconciled
    ensures |b.txns| <= |Apply(b, e).txns| && forall r: nat :: r < |b.txns| && b.txns[r].reconciled ==> Apply(b, e).txns[r] == b.txns[r]
  {
    hide Nearest, Known, IdTaken;
    var end := Apply(b, e);
    if |end.expenses| > |b.expenses| {
      assert end.expenses[..|b.expenses|] == b.expenses;
    }
  }

  /** A reconciled row keeps its trip and its expense for good and is never charged again. */
  lemma {:induction false} ReconciledRowsAreClosed(b: Books, events: seq<Event>, row: nat)
    requires row < |b.txns| && b.txns[row].reconciled
    ensures var end := Play(b, events);
      row < |end.txns| && end.txns[row] == b.txns[row] && Charged(end.expenses, row) == Charged(b.expenses, row)
  {
    hide Apply;
    if events != [] {
      ReconciledRowsAreClosed(b, events[..|events| - 1], row);
      StepCharges(Play(b, events[..|events| - 1]), events[|events| - 1], row);
    }
  }

  /** As long as no row update fails, each toll is charged at most once, even when inserts fail. */
  lemma {:induction false} AtMostOneExpense(events: seq<Event>, row: nat)
    requires forall i :: 0 <= i < |events| ==> UpdatesHold(events[i])
    ensures var end := Play(EMPTY, events);
      Charged(end.expenses, row) <= 1 && (Charged(end.expenses, row) == 1 ==> row < |end.txns| && end.txns[row].reconciled)
  {
    hide Apply, UpdatesHold;
    if events != [] {
      var n := |events| - 1;
      AtMostOneExpense(events[..n], row);
      StepCharges(Play(EMPTY, events[..n]), events[n], row);
      UpdateHeld(events[n]);
      RowsStay(Play(EMPTY, events[..n]), events[n]);
    }
  }

  lemma UpdateHeld(e: Event)
    requires UpdatesHold(e)
    ensures e.Settle? ==> e.fault.updates
  {
  }

  lemma RowsStay(b: Books, e: Event)
    ensures |Apply(b, e).txns| >= |b.txns|
  {
    hide Nearest, Known, IdTaken;
  }

  /** A toll can still be charged (again) exactly while its row is open. So a failed row update
      after a successful insert is what leads to a second expense for the same toll. */
  lemma ChargeableIffOpen(b: Books, row: nat)
    requires row < |b.txns|
    ensures !b.txns[row].reconciled <==> exists events: seq<Event> :: Charged(Play(b, events).expenses, row) > Charged(b.expenses, row)
  {
    hide Play;
    if b.txns[row].reconciled {
      forall events: seq<Event> ensures Charged(Play(b, events).expenses, row) <= Charged(b.expenses, row) {
        ReconciledRowsAreClosed(b, events, row);
      }
    } else {
      var at := b.txns[row].p.at;
      var e := Settle(row, true, [Trip("", None, at, at)], Fault(true, true, true));
      ChargesOnce(b, row, e.trips[0]);
      assert Charged(Play(b, [e]).expenses, row) > Charged(b.expenses, row);
    }
  }

  lemma ChargesOnce(b: Books, row: nat, t: Trip)
    requires row < |b.txns| && !b.txns[row].reconciled && InWindow(t, b.txns[row].p.at)
    ensures Charged(Play(b, [Settle(row, true, [t], Fault(true, true, true))]).expenses, row) == Charged(b.expenses, row) + 1
  {
    var e := Settle(row, true, [t], Fault(true, true, true));
    assert [e][..0] == [] && [t][..0] == [];
    assert Play(b, []) == b;
    assert Nearest([t], b.txns[row].p.at) == Some(0);
    StepCharges(b, e, row);
  }

  /** The failing family at its smallest: the insert takes effect, the update does not, and the
      next run books the same toll a second time. */
  lemma FailedUpdateDoublesTheToll(p: Pulled, t: Trip)
    requires InWindow(t, p.at)
    ensures var b := Books([Txn(p, false, None, None)], []);
      var bad := Settle(0, true, [t], Fault(true, true, false));
      var good := Settle(0, true, [t], Fault(true, true, true));
      Spent(Apply(Apply(b, bad), good).expenses) == 2.0 * p.amount && Reconciled(Apply(Apply(b, bad), good).txns) == p.amount
  {
    assert [t][..0] == [];
    assert Nearest([t], p.at) == Some(0);
    var e := ExpenseFor(0, t, p);
    assert [e, e][..1] == [e] && [e][..0] == [];
    assert Spent([e]) == p.amount;
    var b := Books([Txn(p, false, None, None)], []);
    var end := Apply(Apply(b, Settle(0, true, [t], Fault(true, true, false))), Settle(0, true, [t], Fault(true, true, true)));
    assert end.expenses == [e, e];
    assert end.txns[..0] == [];
  }

  /** Every reconciled row names an expense and no expense is stray. */
  ghost predicate Tidy(b: Books) {
    (forall r: nat :: r < |b.txns| ==> (b.txns[r].reconciled <==> b.txns[r].kharcha.Some?)) && Stray(b.txns, b.expenses) == 0.0
  }

  lemma StepTidies(b: Books, e: Event)
    requires Balanced(b) && Tidy(b) && Faultless(e)
    ensures Tidy(Apply(b, e))
  {
    hide Balanced, Tidy, Nearest, Settled, Known, IdTaken;
    match e
    case Arrive(p, _, _) => ImportTidies(b, p);
    case Settle(row, auto, trips, fault) =>
      if row < |b.txns| && !b.txns[row].reconciled {
        var best := Nearest(trips, b.txns[row].p.at);
        if best.Some? { SettlingTidies(b, row, trips[best.value]); }
      }
  }

  lemma ImportTidies(b: Books, p: Pulled)
    requires Balanced(b) && Tidy(b)
    ensures Tidy(b.(txns := b.txns + [Txn(p, false, None, None)]))
  {
    hide Spent, Linked;
    StrayDependsOnNames(b.txns, b.txns + [Txn(p, false, None, None)], b.expenses);
  }

  lemma SettlingTidies(b: Books, row: nat, t: Trip)
    requires Balanced(b) && Tidy(b) && row < |b.txns| && !b.txns[row].reconciled
    ensures Tidy(Settled(b, row, true, t, Fault(true, true, true)))
  {
    hide ExpenseFor, Spent, Linked;
    var end := Settled(b, row, true, t, Fault(true, true, true));
    ExpenseAmount(row, t, b.txns[row].p);
    forall k: nat | k < |b.expenses| ensures Named(b.txns, b.expenses, k) <==> Named(end.txns, b.expenses, k) {
      assert b.expenses[k].row < |b.txns|;
    }
    StrayDependsOnNames(b.txns, end.txns, b.expenses);
    assert end.expenses[..|b.expenses|] == b.expenses;
  }

  lemma {:induction false} TidyTotals(txns: seq<Txn>)
    requires forall r: nat :: r < |txns| ==> (txns[r].reconciled <==> txns[r].kharcha.Some?)
    ensures Linked(txns) == Reconciled(txns)
  {
    if txns != [] { TidyTotals(txns[..|txns| - 1]); }
  }

  /** With every write successful and expenses switched on, over any number of runs the booked
      tolls equal the reconciled tolls. */
  lemma {:induction false} BookedEqualsReconciled(events: seq<Event>)
    requires forall i :: 0 <= i < |events| ==> Faultless(events[i])
    ensures var end := Play(EMPTY, events); Tidy(end) && Spent(end.expenses) == Reconciled(end.txns)
  {
    hide Apply, Faultless, Nearest;
    if events != [] {
      var n := |events| - 1;
      BookedEqualsReconciled(events[..n]);
      TollsAreConserved(events[..n]);
      StepTidies(Play(EMPTY, events[..n]), events[n]);
    }
    TollsAreConserved(events);
    TidyTotals(Play(EMPTY, events).txns);
  }

  // ------------------------------------------------------------- importing

  predicate Twins(a: Pulled, c: Pulled) {
    a.tag == c.tag && a.at == c.at && a.amount == c.amount
  }

  /** No two rows agree in tag, time and amount. */
  ghost predicate NoTwins(txns: seq<Txn>) {
    forall i, j :: 0 <= i < j < |txns| ==> !Twins(txns[i].p, txns[j].p)
  }

  /** A pulled transaction becomes an open row at the end exactly when its insert takes effect, no row has its
      id unless it has none, and the duplicate check, if it answers, finds no row of its tag, time and amount. */
  lemma ImportedIff(b: Books, p: Pulled, probes: bool, inserts: bool)
    ensures var end := Apply(b, Arrive(p, probes, inserts));
      && end.expenses == b.expenses
      && end.txns == b.txns +
           if inserts && (|p.id| == 0 || forall k :: 0 <= k < |b.txns| ==> b.txns[k].p.id != p.id)
              && (probes ==> forall k :: 0 <= k < |b.txns| ==> !Twins(p, b.txns[k].p))
           then [Txn(p, false, None, None)] else []
  {
    assert b.txns + [] == b.txns;
  }

  /** As long as no duplicate check fails, no toll is imported twice however often it is pulled. */
  lemma {:induction false} ImportsNeverRepeat(events: seq<Event>)
    requires forall i :: 0 <= i < |events| && events[i].Arrive? ==> events[i].probes
    ensures NoTwins(Play(EMPTY, events).txns)
  {
    hide Nearest;
    if events != [] { ImportsNeverRepeat(events[..|events| - 1]); }
  }

  // ------------------------------------------------------------- the service

  function Arrivals(pulled: seq<Pulled>, probes: seq<bool>, inserts: seq<bool>): seq<Event>
    requires |probes| == |inserts| == |pulled|
  {
    seq(|pulled|, i requires 0 <= i < |pulled| => Arrive(pulled[i], probes[i], inserts[i]))
  }

  /** The matching loop over the loaded rows; `writes` says how each row's writes fare. */
  function Settlements(load: seq<nat>, auto: bool, trips: seq<Trip>, writes: nat -> Fault): seq<Event> {
    seq(|load|, i requires 0 <= i < |load| => Settle(load[i], auto, trips, writes(load[i])))
  }

  predicate Open(txns: seq<Txn>, row: nat) {
    row < |txns| && !txns[row].reconciled
  }

  /** The load is the open rows among the wanted ones, in time order. */
  ghost predicate LoadsExactly(txns: seq<Txn>, wanted: nat -> bool, n: nat, load: seq<nat>) {
    && Loads(txns, load)
    && (forall r: nat :: r in load <==> r < n && Open(txns, r) && wanted(r))
    && (forall i, j :: 0 <= i < j < |load| ==> txns[load[i]].p.at <= txns[load[j]].p.at)
  }

  /** The rows a run loads: each once, and none reconciled. */
  ghost predicate Loads(txns: seq<Txn>, load: seq<nat>) {
    && (forall i :: 0 <= i < |load| ==> load[i] < |txns| && !txns[load[i]].reconciled)
    && (forall i, j :: 0 <= i < j < |load| ==> load[i] != load[j])
  }

  class FASTagService {
    var txns: seq<Txn>
    var expenses: seq<Expense>
    ghost var history: seq<Event>

    /** The tables are what everything done through the service so far makes of empty ones. */
    ghost predicate Valid()
      reads this
    {
      Tables() == Play(EMPTY, history)
    }

    constructor ()
      ensures Valid() && Tables() == EMPTY && history == []
    {
      txns, expenses, history := [], [], [];
    }

    function Tables(): Books
      reads this
    {
      Books(txns, expenses)
    }

    /** Inserts the pulled transactions not yet there. */
    method Import(pulled: seq<Pulled>, probes: seq<bool>, inserts: seq<bool>)
      requires |probes| == |inserts| == |pulled|
      modifies this`txns
      ensures Tables() == Play(old(Tables()), Arrivals(pulled, probes, inserts))
    {
      hide Nearest, Settled;
      ghost var events := Arrivals(pulled, probes, inserts);
      for n := 0 to |pulled|
        invariant expenses == old(expenses)
        invariant Tables() == Play(old(Tables()), events[..n])
      {
        assert events[..n + 1][..n] == events[..n];
        var p := pulled[n];
        var exists_ := probes[n] && Known(txns, p);
        if !exists_ && inserts[n] && (p.id == "" || !IdTaken(txns, p.id)) {
          txns := txns + [Txn(p, false, None, None)];
        }
      }
      assert events[..|pulled|] == events;
    }

    /** One turn of the matching loop: finds the row's trip, books the expense and marks the row. */
    method SettleRow(row: nat, auto: bool, trips: seq<Trip>, f: Fault) returns (matched: bool, created: bool)
      requires row < |txns| && !txns[row].reconciled
      modifies this`txns, this`expenses
      ensures Tables() == Apply(old(Tables()), Settle(row, auto, trips, f))
      ensures |txns| == |old(txns)| && forall i :: 0 <= i < |txns| && i != row ==> txns[i] == old(txns[i])
      ensures matched == Nearest(trips, old(txns[row].p.at)).Some?
      ensures created == (matched && auto && f.inserts && f.reports)
      ensures |expenses| == |old(expenses)| + if matched && auto && f.inserts then 1 else 0
    {
      hide Nearest, IsNearest, ExpenseFor;
      var best := MatchTrip(trips, txns[row].p.at);
      GreedyIsNearest(trips, txns[row].p.at, best);
      matched, created := false, false;
      if best.Some? {
        matched := true;
        var trip, txn := trips[best.value], txns[row];
        var kharcha: Option<nat> := None;
        if auto {
          if f.inserts {
            expenses := expenses + [ExpenseFor(row, trip, txn.p)];
            if f.reports {
              created := true;
              kharcha := Some(|expenses| - 1);
            }
          }
        }
        if f.updates {
          txns := txns[row := Txn(txn.p, true, Some(trip.id), kharcha)];
        }
      }
    }

    /** Matches every loaded row and settles those with a trip, as the books' events say; the
        rows reported unmatched are exactly those in no trip's window, in load order. */
    method MatchLoaded(load: seq<nat>, auto: bool, trips: seq<Trip>, writes: nat -> Fault)
      returns (matched: nat, unmatched: seq<nat>, kharchaCreated: nat)
      requires Loads(txns, load)
      modifies this`txns, this`expenses
      ensures Tables() == Play(old(Tables()), Settlements(load, auto, trips, writes))
      ensures matched + |unmatched| == |load|
      ensures unmatched == Unmatched(old(txns), trips, load)
      ensures kharchaCreated <= matched && kharchaCreated <= |expenses| - |old(expenses)|
      ensures (forall i :: 0 <= i < |load| ==> writes(load[i]).reports) ==> |expenses| == |old(expenses)| + kharchaCreated
    {
      hide Play, Apply, Nearest;
      ghost var events := Settlements(load, auto, trips, writes);
      matched, unmatched, kharchaCreated := 0, [], 0;
      PlayNothing(Tables());
      for n := 0 to |load|
        invariant |txns| == |old(txns)|
        invariant forall i :: n <= i < |load| ==> txns[load[i]] == old(txns[load[i]])
        invariant Tables() == Play(old(Tables()), events[..n])
        invariant matched + |unmatched| == n
        invariant unmatched == Unmatched(old(txns), trips, load[..n])
        invariant kharchaCreated <= matched && kharchaCreated <= |expenses| - |old(expenses)|
        invariant (forall i :: 0 <= i < |load| ==> writes(load[i]).reports) ==> |expenses| == |old(expenses)| + kharchaCreated
      {
        PlayNext(old(Tables()), events, n);
        UnmatchedNext(old(txns), trips, load, n);
        var found, created := SettleRow(load[n], auto, trips, writes(load[n]));
        if found {
          matched := matched + 1;
          if created {
            kharchaCreated := kharchaCreated + 1;
          }
        } else {
          unmatched := unmatched + [load[n]];
        }
      }
      assert events[..|load|] == events && load[..|load|] == load;
    }

    /** The rows still open, of the vehicle asked for and readable, by time. */
    method LoadUnreconciled(wanted: nat -> bool) returns (load: seq<nat>)
      ensures LoadsExactly(txns, wanted, |txns|, load)
    {
      load := [];
      for n := 0 to |txns|
        invariant LoadsExactly(txns, wanted, n, load)
      {
        if !txns[n].reconciled && wanted(n) {
          load := PlaceByTime(txns, wanted, n, load);
        }
      }
    }

    /** A whole run: import what the provider reports, load the open rows, settle them. A failing
        query ends it after the import. However many runs there have been and whatever failed in
        them, tolls are conserved. */
    method Reconcile(pulled: seq<Pulled>, probes: seq<bool>, inserts: seq<bool>, queriesWork: bool, wanted: nat -> bool,
                     auto: bool, trips: seq<Trip>, writes: nat -> Fault)
      returns (ok: bool, matched: nat, unmatched: seq<nat>, kharchaCreated: nat, ghost load: seq<nat>)
      requires Valid() && |probes| == |inserts| == |pulled|
      modifies this
      ensures Valid() && Balanced(Tables())
      ensures history == old(history) + (Arrivals(pulled, probes, inserts) + Settlements(load, auto, trips, writes))
      ensures ok == queriesWork
      ensures var imported := Play(old(Tables()), Arrivals(pulled, probes, inserts));
        if ok then
          && LoadsExactly(imported.txns, wanted, |imported.txns|, load)
          && matched + |unmatched| == |load| && unmatched == Unmatched(imported.txns, trips, load)
        else
          load == [] && Tables() == imported
    {
      hide Play, Apply, Balanced, Unmatched;
      matched, unmatched, kharchaCreated, load := 0, [], 0, [];
      ok := queriesWork;
      ghost var before := Tables();
      ghost var arrivals := Arrivals(pulled, probes, inserts);
      Import(pulled, probes, inserts);
      var rows := [];
      if queriesWork {
        rows := LoadUnreconciled(wanted);
        load := rows;
        matched, unmatched, kharchaCreated := MatchLoaded(rows, auto, trips, writes);
      } else {
        PlayNothing(Tables());
        assert Settlements(load, auto, trips, writes)[..0] == Settlements(load, auto, trips, writes);
      }
      PlayConcat(before, arrivals, Settlements(load, auto, trips, writes));
      PlayConcat(EMPTY, history, arrivals + Settlements(load, auto, trips, writes));
      history := history + (arrivals + Settlements(load, auto, trips, writes));
      TollsAreConserved(history);
    }
  }

  /** Puts row n behind the loaded rows that are not later. */
  method PlaceByTime(txns: seq<Txn>, wanted: nat -> bool, n: nat, load: seq<nat>) returns (longer: seq<nat>)
    requires n < |txns| && !txns[n].reconciled && wanted(n) && LoadsExactly(txns, wanted, n, load)
    ensures LoadsExactly(txns, wanted, n + 1, longer)
  {
    var k := |load|;
    while k > 0 && txns[load[k - 1]].p.at > txns[n].p.at
      invariant 0 <= k <= |load|
      invariant forall j :: k <= j < |load| ==> txns[load[j]].p.at > txns[n].p.at
    {
      k := k - 1;
    }
    longer := load[..k] + [n] + load[k..];
    PlacedByTime(txns, wanted, n, load, k, longer);
  }

  lemma PlacedByTime(txns: seq<Txn>, wanted: nat -> bool, n: nat, load: seq<nat>, k: nat, longer: seq<nat>)
    requires n < |txns| && !txns[n].reconciled && wanted(n) && LoadsExactly(txns, wanted, n, load)
    requires k <= |load| && longer == load[..k] + [n] + load[k..]
    requires (k > 0 ==> txns[load[k - 1]].p.at <= txns[n].p.at) && forall j :: k <= j < |load| ==> txns[load[j]].p.at > txns[n].p.at
    ensures LoadsExactly(txns, wanted, n + 1, longer)
  {
    hide LoadsExactly, Loads, Open;
    PlacedMembers(load, n, k);
    LoadedBelow(txns, wanted, n, load);
    forall r: nat ensures r in longer <==> r < n + 1 && Open(txns, r) && wanted(r) {
      OpenRow(txns, r);
    }
    assert Loads(txns, longer) by { PlacedLoads(txns, n, load, k); }
    assert forall i, j :: 0 <= i < j < |longer| ==> txns[longer[i]].p.at <= txns[longer[j]].p.at by {
      PlacedInOrder(txns, n, load, k);
    }
    Exactly(txns, wanted, n + 1, longer);
  }

  lemma OpenRow(txns: seq<Txn>, r: nat)
    ensures Open(txns, r) <==> r < |txns| && !txns[r].reconciled
  {
  }

  lemma LoadedBelow(txns: seq<Txn>, wanted: nat -> bool, n: nat, load: seq<nat>)
    requires LoadsExactly(txns, wanted, n, load)
    ensures Loads(txns, load) && (forall i :: 0 <= i < |load| ==> load[i] < n && load[i] < |txns|)
    ensures forall r: nat :: r in load <==> r < n && Open(txns, r) && wanted(r)
    ensures forall i, j :: 0 <= i < j < |load| ==> txns[load[i]].p.at <= txns[load[j]].p.at
  {
    forall i | 0 <= i < |load| ensures load[i] < n { assert load[i] in load; }
  }

  lemma Exactly(txns: seq<Txn>, wanted: nat -> bool, n: nat, load: seq<nat>)
    requires Loads(txns, load) && forall r: nat :: r in load <==> r < n && Open(txns, r) && wanted(r)
    requires forall i, j :: 0 <= i < j < |load| ==> txns[load[i]].p.at <= txns[load[j]].p.at
    ensures LoadsExactly(txns, wanted, n, load)
  {
  }

  lemma PlacedMembers(load: seq<nat>, n: nat, k: nat)
    requires k <= |load|
    ensures forall r: nat :: r in load[..k] + [n] + load[k..] <==> r in load || r == n
  {
    assert load == load[..k] + load[k..];
  }

  lemma PlacedLoads(txns: seq<Txn>, n: nat, load: seq<nat>, k: nat)
    requires Loads(txns, load) && k <= |load| && n < |txns| && !txns[n].reconciled && forall i :: 0 <= i < |load| ==> load[i] < n
    ensures Loads(txns, load[..k] + [n] + load[k..])
  {
  }

  lemma PlacedInOrder(txns: seq<Txn>, n: nat, load: seq<nat>, k: nat)
    requires k <= |load| && n < |txns| && forall i :: 0 <= i < |load| ==> load[i] < |txns|
    requires forall i, j :: 0 <= i < j < |load| ==> txns[load[i]].p.at <= txns[load[j]].p.at
    requires (k > 0 ==> txns[load[k - 1]].p.at <= txns[n].p.at) && forall j :: k <= j < |load| ==> txns[load[j]].p.at > txns[n].p.at
    ensures var longer := load[..k] + [n] + load[k..];
      (forall i :: 0 <= i < |longer| ==> longer[i] < |txns|)
      && forall i, j :: 0 <= i < j < |longer| ==> txns[longer[i]].p.at <= txns[longer[j]].p.at
  {
    forall i | 0 <= i < k ensures txns[load[i]].p.at <= txns[n].p.at {
      if i < k - 1 { assert txns[load[i]].p.at <= txns[load[k - 1]].p.at; }
    }
  }

  /** The loaded rows whose time lies in no trip's window. */
  function Unmatched(txns: seq<Txn>, trips: seq<Trip>, load: seq<nat>): seq<nat>
    requires forall i :: 0 <= i < |load| ==> load[i] < |txns|
  {
    if load == [] then [] else
      var row := load[|load| - 1];
      Unmatched(txns, trips, load[..|load| - 1])
      + if forall j :: 0 <= j < |trips| ==> !Covers(trips[j], txns[row].p.at) then [row] else []
  }

  lemma UnmatchedNext(txns: seq<Txn>, trips: seq<Trip>, load: seq<nat>, n: nat)
    requires n < |load| && forall i :: 0 <= i < |load| ==> load[i] < |txns|
    ensures Unmatched(txns, trips, load[..n + 1]) ==
      Unmatched(txns, trips, load[..n]) + if Nearest(trips, txns[load[n]].p.at).None? then [load[n]] else []
  {
    assert load[..n + 1][..n] == load[..n];
    NearestIsNearest(trips, txns[load[n]].p.at);
  }

  lemma PlayNothing(b: Books)
    ensures forall events: seq<Event> :: Play(b, events[..0]) == b
  {
  }

  lemma PlayNext(b: Books, events: seq<Event>, n: nat)
    requires n < |events|
    ensures Play(b, events[..n + 1]) == Apply(Play(b, events[..n]), events[n])
  {
    hide Apply;
    assert events[..n + 1][..n] == events[..n];
  }
}
