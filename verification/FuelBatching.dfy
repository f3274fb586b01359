/**
 * When snapshots arrive in time order, how they are split into sweeps does not matter; when
 * they do not, exactly the late ones are lost.
 */
module FuelBatching {
  import opened Common
  import opened FuelModel
  import opened FuelRuns
  import opened FuelSweeps
  import opened FuelCommits

  ghost predicate Strict(rows: seq<Snapshot>) {
    forall i, j :: 0 <= i < j < |rows| ==> rows[i].ts < rows[j].ts
  }

  /** Legal actions in which every arrival has an exact time newer than all earlier ones. */
  ghost predicate OrderedPlay(v: Vehicle, cfg: Config, oracle: nat -> Commits, actions: seq<Action>)
    requires cfg.Valid()
  {
    actions == [] ||
    var before, a := actions[..|actions| - 1], actions[|actions| - 1];
    var sys := Play(v, cfg, oracle, START, before);
    && OrderedPlay(v, cfg, oracle, before) && Legal(cfg, sys, a)
    && (a.Arrive? ==> a.s.reach == 0 && forall r :: r in sys.rows ==> r.ts < a.s.ts)
  }

  /** The calls that feed n rows in order from row `skipped` on, the first `warmed` as warm-up. */
  function InRowOrder(rows: seq<Snapshot>, oracle: nat -> Commits, skipped: nat, warmed: nat, n: nat): seq<Input>
    requires skipped + n <= |rows|
  {
    seq(n, k requires 0 <= k < n => Input(rows[skipped + k], k < warmed, oracle(rows[skipped + k].id)))
  }

  ghost predicate Ordered(oracle: nat -> Commits, sys: System) {
    && Strict(sys.rows) && Exact(sys.rows)
    && sys.skipped + |sys.calls| <= |sys.rows|
    && sys.calls == InRowOrder(sys.rows, oracle, sys.skipped, sys.warmed, |sys.calls|)
    && sys.warmed <= |sys.calls|
  }

  // ------------------------------------------------------------- queries over ordered rows

  lemma LastsAgree(p: seq<Snapshot>, q: seq<Snapshot>)
    requires Arranges(p, q) && Strict(q) && q != []
    ensures |p| == |q| && p[|p| - 1] == q[|q| - 1]
  {
    assert |p| == |multiset(p)| == |multiset(q)| == |q|;
    var last := |q| - 1;
    assert forall i :: 0 <= i < last ==> q[i].ts < q[last].ts;
    assert q[last] in multiset(p) && p[last] in multiset(q);
    var k :| 0 <= k < |p| && p[k] == q[last];
    var j :| 0 <= j < |q| && q[j] == p[last];
    assert q[last].ts <= p[last].ts by { if k < last { assert p[k].ts <= p[last].ts; } }
  }

  lemma WithoutLast(p: seq<Snapshot>)
    requires p != []
    ensures multiset(p[..|p| - 1]) == multiset(p) - multiset{p[|p| - 1]}
  {
    assert p == p[..|p| - 1] + [p[|p| - 1]];
  }

  lemma {:induction false} ArrangementUnique(p: seq<Snapshot>, q: seq<Snapshot>)
    requires Arranges(p, q) && Strict(q)
    ensures p == q
  {
    hide InOrder, Strict;
    if q == [] {
      assert |multiset(p)| == 0;
    } else {
      PrefixesArranged(p, q);
      ArrangementUnique(p[..|p| - 1], q[..|q| - 1]);
      assert p == p[..|p| - 1] + [p[|p| - 1]] && q == q[..|q| - 1] + [q[|q| - 1]];
    }
  }

  lemma PrefixesArranged(p: seq<Snapshot>, q: seq<Snapshot>)
    requires Arranges(p, q) && Strict(q) && q != []
    ensures |p| == |q| && p[|p| - 1] == q[|q| - 1]
    ensures Arranges(p[..|p| - 1], q[..|q| - 1]) && Strict(q[..|q| - 1])
  {
    LastsAgree(p, q);
    WithoutLast(p);
    WithoutLast(q);
  }

  /** No row compares as newer than any watermark after its own. */
  ghost predicate Near(rows: seq<Snapshot>) {
    forall r: Snapshot :: r in rows ==> r.reach <= 1
  }

  lemma {:induction false} NewerOfBoth(a: seq<Snapshot>, b: seq<Snapshot>, after: nat)
    ensures Newer(a + b, after) == Newer(a, after) + Newer(b, after)
  {
    if b == [] {
      assert a + b == a;
    } else {
      assert (a + b)[..|a + b| - 1] == a + b[..|b| - 1];
      NewerOfBoth(a, b[..|b| - 1], after);
    }
  }

  lemma {:induction false} NewerIsAll(rows: seq<Snapshot>, after: nat)
    requires forall k :: 0 <= k < |rows| ==> Passes(rows[k], after)
    ensures Newer(rows, after) == rows
  {
    hide Passes;
    if rows != [] {
      NewerIsAll(rows[..|rows| - 1], after);
      assert rows == rows[..|rows| - 1] + [rows[|rows| - 1]];
    }
  }

  lemma {:induction false} NewerIsNone(rows: seq<Snapshot>, after: nat)
    requires forall k :: 0 <= k < |rows| ==> !Passes(rows[k], after)
    ensures Newer(rows, after) == []
  {
    hide Passes;
    if rows != [] { NewerIsNone(rows[..|rows| - 1], after); }
  }

  lemma PassesOrNot(rows: seq<Snapshot>, m: nat, k: nat)
    requires Strict(rows) && Near(rows) && 0 < m <= |rows| && k < |rows|
    ensures Passes(rows[k], rows[m - 1].ts) <==> k >= m || (k == m - 1 && rows[k].reach == 1)
  {
    assert rows[k] in rows;
    if k < m - 1 { assert rows[k].ts < rows[m - 1].ts; }
    if k > m - 1 { assert rows[m - 1].ts < rows[k].ts; }
  }

  /** With the watermark at row m - 1 the query starts there if the row passes it, else behind it. */
  lemma NewerFrom(rows: seq<Snapshot>, m: nat)
    requires Strict(rows) && Near(rows) && 0 < m <= |rows|
    ensures Newer(rows, rows[m - 1].ts) == rows[if rows[m - 1].reach == 1 then m - 1 else m..]
  {
    hide Passes, Near, Strict, Newer;
    var from := if rows[m - 1].reach == 1 then m - 1 else m;
    var after := rows[m - 1].ts;
    var a, b := rows[..from], rows[from..];
    forall k | 0 <= k < |a| ensures !Passes(a[k], after) { PassesOrNot(rows, m, k); }
    forall k | 0 <= k < |b| ensures Passes(b[k], after) { PassesOrNot(rows, m, from + k); }
    NewerIsNone(a, after);
    NewerIsAll(b, after);
    NewerOfBoth(a, b, after);
    assert rows == a + b && [] + b == b;
  }

  /** In order, the watermark is the timestamp of the last row fed. */
  lemma OrderedWatermark(v: Vehicle, cfg: Config, oracle: nat -> Commits, sys: System)
    requires cfg.Valid() && Consistent(v, cfg, sys) && Ordered(oracle, sys) && sys.entry.Some? && sys.calls != []
    ensures sys.entry.value.lastTs == sys.rows[sys.skipped + |sys.calls| - 1].ts
  {
    hide Run;
    WatermarkCovers(v, cfg, sys.calls);
    var n := |sys.calls|;
    var k :| 0 <= k < n && sys.calls[k].s.ts == sys.entry.value.lastTs;
    assert sys.calls[k].s == sys.rows[sys.skipped + k] && sys.calls[n - 1].s == sys.rows[sys.skipped + n - 1];
  }

  /** The one batch a query over ordered rows can return. */
  lemma OrderedBatch(v: Vehicle, cfg: Config, oracle: nat -> Commits, sys: System, batch: seq<Snapshot>)
    requires cfg.Valid() && Consistent(v, cfg, sys) && Ordered(oracle, sys) && Legal(cfg, sys, Sweep(batch))
    ensures batch ==
      if sys.entry.None? then LastN(sys.rows, cfg.medianWindow)
      else if sys.calls == [] then []
      else Capped(sys.rows[sys.skipped + |sys.calls|..])
  {
    hide Run, Newer, InRowOrder, Capped;
    if sys.entry.None? {
      var p :| Arranges(p, sys.rows) && batch == LastN(p, cfg.medianWindow);
      ArrangementUnique(p, sys.rows);
    } else if sys.calls != [] {
      OrderedWatermark(v, cfg, oracle, sys);
      var m := sys.skipped + |sys.calls|;
      var after := sys.entry.value.lastTs;
      assert sys.rows[m - 1] in sys.rows;
      NewerFrom(sys.rows, m);
      var p :| Arranges(p, Newer(sys.rows, after)) && batch == Capped(p);
      ArrangementUnique(p, sys.rows[m..]);
    }
  }

  // ------------------------------------------------------------- batching

  lemma SweepStaysOrdered(v: Vehicle, cfg: Config, oracle: nat -> Commits, sys: System, batch: seq<Snapshot>)
    requires cfg.Valid() && Consistent(v, cfg, sys) && Ordered(oracle, sys) && Legal(cfg, sys, Sweep(batch))
    ensures Ordered(oracle, Apply(v, cfg, oracle, sys, Sweep(batch)))
  {
    hide Run, Feed, Legal, Latest, StepOn;
    OrderedBatch(v, cfg, oracle, sys, batch);
    RunOfNothing(v, cfg);
    FeedTakesPrefix(v, cfg, sys.calls, batch, sys.entry.None?, oracle);
  }

  lemma ActionStaysOrdered(v: Vehicle, cfg: Config, oracle: nat -> Commits, sys: System, a: Action)
    requires cfg.Valid() && Consistent(v, cfg, sys) && Ordered(oracle, sys) && Legal(cfg, sys, a)
    requires a.Arrive? ==> a.s.reach == 0 && forall r :: r in sys.rows ==> r.ts < a.s.ts
    ensures Ordered(oracle, Apply(v, cfg, oracle, sys, a))
  {
    hide Feed, Run;
    if a.Sweep? { SweepStaysOrdered(v, cfg, oracle, sys, a.batch); }
  }

  /** With arrivals in order, every schedule of sweeps, caps and failures feeds the pipeline
      the rows from the start of the warm-up on, each once, in order: the state is one fold. */
  lemma {:induction false} SweepsFoldTheRows(v: Vehicle, cfg: Config, oracle: nat -> Commits, actions: seq<Action>)
    requires cfg.Valid() && OrderedPlay(v, cfg, oracle, actions)
    ensures var end := Play(v, cfg, oracle, START, actions);
      && Consistent(v, cfg, end) && Ordered(oracle, end)
      && (end.entry.Some? ==>
            end.entry.value == Run(v, cfg, InRowOrder(end.rows, oracle, end.skipped, end.warmed, |end.calls|)))
  {
    hide Apply, Run, Legal;
    if actions != [] {
      var before, a := actions[..|actions| - 1], actions[|actions| - 1];
      SweepsFoldTheRows(v, cfg, oracle, before);
      ActionStaysOrdered(v, cfg, oracle, Play(v, cfg, oracle, START, before), a);
      StepStaysConsistent(v, cfg, oracle, Play(v, cfg, oracle, START, before), a);
    }
  }

  /** Batching does not matter: two schedules with the same rows and the same warm-up that
      have both caught up made the same calls and hold the same state. */
  lemma BatchingDoesNotMatter(v: Vehicle, cfg: Config, oracle: nat -> Commits, one: seq<Action>, other: seq<Action>)
    requires cfg.Valid() && OrderedPlay(v, cfg, oracle, one) && OrderedPlay(v, cfg, oracle, other)
    requires var a, b := Play(v, cfg, oracle, START, one), Play(v, cfg, oracle, START, other);
      && a.rows == b.rows && a.skipped == b.skipped && a.warmed == b.warmed
      && a.entry.Some? && a.skipped + |a.calls| == |a.rows|
      && b.entry.Some? && b.skipped + |b.calls| == |b.rows|
    ensures var a, b := Play(v, cfg, oracle, START, one), Play(v, cfg, oracle, START, other);
      a.calls == b.calls && a.entry == b.entry
  {
    hide Play, Run, OrderedPlay;
    SweepsFoldTheRows(v, cfg, oracle, one);
    SweepsFoldTheRows(v, cfg, oracle, other);
  }

  /** The same failures, but with every level transaction committing. */
  function MendedOracle(oracle: nat -> Commits): nat -> Commits {
    (id: nat) => oracle(id).(level := true)
  }

  /** Failing level commits cut sweeps short, and a later sweep resumes behind the failed call. Still,
      once caught up, a schedule with failures holds the state of any schedule over the same rows
      and warm-up in which every level transaction commits; it raised the same events and
      committed those with some left out. */
  lemma FailuresOnlyLoseAcrossSweeps(v: Vehicle, cfg: Config, oracle: nat -> Commits, failing: seq<Action>, whole: seq<Action>)
    requires cfg.Valid() && OrderedPlay(v, cfg, oracle, failing) && OrderedPlay(v, cfg, MendedOracle(oracle), whole)
    requires var a, b := Play(v, cfg, oracle, START, failing), Play(v, cfg, MendedOracle(oracle), START, whole);
      && a.rows == b.rows && a.skipped == b.skipped && a.warmed == b.warmed
      && a.entry.Some? && a.skipped + |a.calls| == |a.rows|
      && b.entry.Some? && b.skipped + |b.calls| == |b.rows|
    ensures var a, b := Play(v, cfg, oracle, START, failing), Play(v, cfg, MendedOracle(oracle), START, whole);
      && a.entry == b.entry && Raised(v, cfg, a.calls) == Raised(v, cfg, b.calls)
      && Subsequence(Committed(v, cfg, a.calls), Committed(v, cfg, b.calls))
  {
    hide Play, Run, OrderedPlay, Raised, Committed, Subsequence;
    SweepsFoldTheRows(v, cfg, oracle, failing);
    SweepsFoldTheRows(v, cfg, MendedOracle(oracle), whole);
    var a, b := Play(v, cfg, oracle, START, failing), Play(v, cfg, MendedOracle(oracle), START, whole);
    LevelFailuresOnlyLose(v, cfg, a.calls);
    assert b.calls == MendedRun(a.calls);
  }

  /** A sweep over a warmed-up vehicle feeds the whole batch, up to the cap, unless a call
      fails; and even then it gets past at least one pending row, so sweeps catch up. */
  lemma SweepProgress(v: Vehicle, cfg: Config, oracle: nat -> Commits, sys: System, batch: seq<Snapshot>)
    requires cfg.Valid() && Consistent(v, cfg, sys) && Ordered(oracle, sys) && Legal(cfg, sys, Sweep(batch))
    requires sys.entry.Some? && sys.calls != []
    ensures var next := Apply(v, cfg, oracle, sys, Sweep(batch)); var pending := |sys.rows| - sys.skipped - |sys.calls|;
      && (|next.calls| == |sys.calls| + (if pending < 500 then pending else 500) || Latest(v, cfg, next.calls).failed)
      && (pending > 0 ==> |next.calls| > |sys.calls|)
  {
    hide Run, Feed, Legal, Latest, StepOn;
    OrderedBatch(v, cfg, oracle, sys, batch);
    FeedTakesPrefix(v, cfg, sys.calls, batch, false, oracle);
  }

  // ------------------------------------------------------------- stalled vehicles and late rows

  /** A vehicle whose first sweep fed nothing, because its warm-up query failed or found no
      rows, is never processed again in this engine's lifetime. */
  lemma {:induction false} UnwarmedVehicleStalls(v: Vehicle, cfg: Config, oracle: nat -> Commits, sys: System, actions: seq<Action>)
    requires cfg.Valid() && Consistent(v, cfg, sys) && LegalPlay(v, cfg, oracle, sys, actions)
    requires sys.entry.Some? && sys.calls == []
    ensures var end := Play(v, cfg, oracle, sys, actions); end.entry.Some? && end.calls == []
  {
    hide Run, Consistent;
    if actions != [] {
      var before := actions[..|actions| - 1];
      UnwarmedVehicleStalls(v, cfg, oracle, sys, before);
      AlwaysConsistent(v, cfg, oracle, sys, before);
      EmptyEntryRejects(v, cfg, oracle, Play(v, cfg, oracle, sys, before), actions[|actions| - 1]);
    }
  }

  lemma EmptyEntryRejects(v: Vehicle, cfg: Config, oracle: nat -> Commits, sys: System, a: Action)
    requires cfg.Valid() && Consistent(v, cfg, sys) && Legal(cfg, sys, a) && sys.entry.Some? && sys.calls == []
    ensures var next := Apply(v, cfg, oracle, sys, a); next.entry.Some? && next.calls == []
  {
    hide Run;
  }

  /** Pending rows move exactly when the warm-up fed something. */
  lemma PendingRowsMoveIffWarmed(v: Vehicle, cfg: Config, oracle: nat -> Commits, sys: System, batch: seq<Snapshot>)
    requires cfg.Valid() && Consistent(v, cfg, sys) && Ordered(oracle, sys) && Legal(cfg, sys, Sweep(batch))
    requires sys.entry.Some? && sys.skipped + |sys.calls| < |sys.rows|
    ensures |Apply(v, cfg, oracle, sys, Sweep(batch)).calls| > |sys.calls| <==> sys.calls != []
  {
    hide Run, Apply, Legal, Consistent, Ordered, Latest;
    if sys.calls != [] {
      SweepProgress(v, cfg, oracle, sys, batch);
    } else {
      EmptyEntryRejects(v, cfg, oracle, sys, Sweep(batch));
    }
  }

  predicate Fed(calls: seq<Input>, r: Snapshot) {
    exists k :: 0 <= k < |calls| && calls[k].s == r
  }

  lemma ActionIgnoresLateRow(v: Vehicle, cfg: Config, oracle: nat -> Commits, sys: System, a: Action, r: Snapshot)
    requires cfg.Valid() && Consistent(v, cfg, sys) && Legal(cfg, sys, a)
    requires sys.entry.Some? && !Passes(r, sys.entry.value.lastTs) && !Fed(sys.calls, r)
    ensures var next := Apply(v, cfg, oracle, sys, a);
      next.entry.Some? && !Passes(r, next.entry.value.lastTs) && !Fed(next.calls, r)
  {
    hide Run, Feed, Legal, Latest, StepOn, DistinctIds, CallsBelow;
    if a.Sweep? {
      LegalBatch(cfg, sys, a.batch);
      FeedTakesPrefix(v, cfg, sys.calls, a.batch, false, oracle);
      var next := Apply(v, cfg, oracle, sys, a);
      WatermarkGrows(v, cfg, sys.calls, next.calls[|sys.calls|..]);
      assert next.calls[..|sys.calls|] == sys.calls && sys.calls + next.calls[|sys.calls|..] == next.calls;
      forall k | 0 <= k < |next.calls| ensures next.calls[k].s != r {
        if k >= |sys.calls| { assert next.calls[k].s == a.batch[k - |sys.calls|]; }
      }
    }
  }

  lemma WatermarkGrows(v: Vehicle, cfg: Config, calls: seq<Input>, more: seq<Input>)
    requires cfg.Valid()
    ensures Run(v, cfg, calls).lastTs <= Run(v, cfg, calls + more).lastTs
  {
    hide Run;
    WatermarkCovers(v, cfg, calls);
    WatermarkCovers(v, cfg, calls + more);
    if Run(v, cfg, calls).lastTs > 0 {
      var k :| 0 <= k < |calls| && calls[k].s.ts == Run(v, cfg, calls).lastTs;
      assert (calls + more)[k] == calls[k];
    }
  }

  /** A row that does not pass the watermark and has not been fed never will be: a late arrival, or a
      row sharing the timestamp at which a capped batch ended, is lost for good. */
  lemma {:induction false} LateRowIsLost(v: Vehicle, cfg: Config, oracle: nat -> Commits, sys: System, actions: seq<Action>, r: Snapshot)
    requires cfg.Valid() && Consistent(v, cfg, sys) && LegalPlay(v, cfg, oracle, sys, actions)
    requires sys.entry.Some? && !Passes(r, sys.entry.value.lastTs) && !Fed(sys.calls, r)
    ensures var end := Play(v, cfg, oracle, sys, actions);
      end.entry.Some? && !Passes(r, end.entry.value.lastTs) && !Fed(end.calls, r)
  {
    hide Run, Consistent, Apply, Legal;
    if actions != [] {
      var before := actions[..|actions| - 1];
      LateRowIsLost(v, cfg, oracle, sys, before, r);
      AlwaysConsistent(v, cfg, oracle, sys, before);
      ActionIgnoresLateRow(v, cfg, oracle, Play(v, cfg, oracle, sys, before), actions[|actions| - 1], r);
    }
  }
}
