/**
 * Sweeps over one vehicle: the snapshot table grows, sweeps query it past the watermark in
 * capped batches, and a failing commit abandons the rest of a batch. The theorems say which
 * snapshots the pipeline sees, in what order, and how often.
 */
module FuelSweeps {
  import opened Common
  import opened FuelModel
  import opened FuelRuns
  import FuelCommits

  const MAX_SNAPSHOTS_PER_SWEEP: nat := 500

  // ------------------------------------------------------------- queries

  ghost predicate InOrder(s: seq<Snapshot>) {
    forall i, j :: 0 <= i < j < |s| ==> s[i].ts <= s[j].ts
  }

  /** p lists the rows by time; rows of equal time may come in any order. */
  ghost predicate Arranges(p: seq<Snapshot>, rows: seq<Snapshot>) {
    multiset(p) == multiset(rows) && InOrder(p)
  }

  /** The row's stored time compares as newer than the watermark. */
  predicate Passes(r: Snapshot, after: nat) {
    r.ts + r.reach > after
  }

  /** No row compares as newer than a watermark that is not before its time. */
  ghost predicate Exact(rows: seq<Snapshot>) {
    forall r: Snapshot :: r in rows ==> r.reach == 0
  }

  function Newer(rows: seq<Snapshot>, after: nat): seq<Snapshot> {
    if rows == [] then []
    else Newer(rows[..|rows| - 1], after) + if Passes(rows[|rows| - 1], after) then [rows[|rows| - 1]] else []
  }

  /** An answer to the warm-up query: the last n rows by time. */
  ghost predicate IsRecent(rows: seq<Snapshot>, n: nat, batch: seq<Snapshot>) {
    exists p :: Arranges(p, rows) && batch == LastN(p, n)
  }

  function Capped(p: seq<Snapshot>): seq<Snapshot> {
    p[..Min(MAX_SNAPSHOTS_PER_SWEEP, |p|)]
  }

  /** An answer to the live query: the oldest rows passing the watermark, up to the cap; none
      while the watermark is still the zero time. */
  ghost predicate IsAfter(rows: seq<Snapshot>, after: nat, batch: seq<Snapshot>) {
    if after == 0 then batch == [] else exists p :: Arranges(p, Newer(rows, after)) && batch == Capped(p)
  }

  // ------------------------------------------------------------- one sweep

  /** Feeds a batch to the pipeline until one call fails; returns the state and the calls made. */
  function Feed(v: Vehicle, cfg: Config, st: State, batch: seq<Snapshot>, warmup: bool, oracle: nat -> Commits): (State, seq<Input>)
    requires cfg.Valid()
    decreases |batch|
  {
    if batch == [] then (st, []) else
      var i := Input(batch[0], warmup, oracle(batch[0].id));
      var o := StepOn(v, cfg, st, i);
      if o.failed then (o.st, [i]) else
        var (last, calls) := Feed(v, cfg, o.st, batch[1..], warmup, oracle);
        (last, [i] + calls)
  }

  /** The vehicle's rows, its entry in the state map, every pipeline call made for it, the
      number of rows older than its warm-up and the number of warm-up calls. */
  datatype System = System(rows: seq<Snapshot>, entry: Option<State>, calls: seq<Input>, skipped: nat, warmed: nat)

  const START := System([], None, [], 0, 0)

  datatype Action = Arrive(s: Snapshot) | Sweep(batch: seq<Snapshot>) | QueryFails

  ghost predicate Legal(cfg: Config, sys: System, a: Action) {
    match a
    case Arrive(s) => s.ts > 0 && forall r :: r in sys.rows ==> r.id != s.id
    case Sweep(batch) =>
      if sys.entry.None? then IsRecent(sys.rows, cfg.medianWindow, batch)
      else IsAfter(sys.rows, sys.entry.value.lastTs, batch)
    case QueryFails => true
  }

  /** A sweep creates the entry before it queries, so a failing query leaves an empty one behind. */
  function Apply(v: Vehicle, cfg: Config, oracle: nat -> Commits, sys: System, a: Action): System
    requires cfg.Valid()
  {
    match a
    case Arrive(s) => sys.(rows := sys.rows + [s])
    case QueryFails => if sys.entry.None? then sys.(entry := Some(INITIAL)) else sys
    case Sweep(batch) =>
      if sys.entry.None? then
        var (st, calls) := Feed(v, cfg, INITIAL, batch, true, oracle);
        System(sys.rows, Some(st), calls, |sys.rows| - Min(|sys.rows|, cfg.medianWindow), |calls|)
      else
        var (st, calls) := Feed(v, cfg, sys.entry.value, batch, false, oracle);
        sys.(entry := Some(st), calls := sys.calls + calls)
  }

  function Play(v: Vehicle, cfg: Config, oracle: nat -> Commits, sys: System, actions: seq<Action>): System
    requires cfg.Valid()
  {
    if actions == [] then sys
    else Apply(v, cfg, oracle, Play(v, cfg, oracle, sys, actions[..|actions| - 1]), actions[|actions| - 1])
  }

  ghost predicate LegalPlay(v: Vehicle, cfg: Config, oracle: nat -> Commits, sys: System, actions: seq<Action>)
    requires cfg.Valid()
  {
    actions == [] ||
    var before := actions[..|actions| - 1];
    LegalPlay(v, cfg, oracle, sys, before) && Legal(cfg, Play(v, cfg, oracle, sys, before), actions[|actions| - 1])
  }

  // ------------------------------------------------------------- what a feed does

  /** The watermark is the latest timestamp seen, failing calls included. */
  lemma StepAdvancesWatermark(v: Vehicle, cfg: Config, st: State, i: Input)
    requires cfg.Valid()
    ensures StepOn(v, cfg, st, i).st.lastTs == Max(st.lastTs, i.s.ts)
  {
    hide StepOn, LevelStage, OdoFails, Gap;
    StepShape(v, cfg, st, i);
    FuelCommits.LevelStageKeepsContext(v, cfg, AtLevel(cfg, st, i), i.s, Enter(cfg, st, i.s, i.warmup).lastOdometer);
  }

  lemma RunOneMore(v: Vehicle, cfg: Config, done: seq<Input>, i: Input)
    requires cfg.Valid()
    ensures Run(v, cfg, done + [i]) == StepOn(v, cfg, Run(v, cfg, done), i).st
    ensures Latest(v, cfg, done + [i]) == StepOn(v, cfg, Run(v, cfg, done), i)
  {
    hide StepOn;
    assert (done + [i])[..|done + [i]| - 1] == done;
  }

  /** The calls are those for a prefix of the batch, non-empty when the batch is; only a
      failing call cuts it short. */
  lemma {:induction false} FeedTakesPrefix(v: Vehicle, cfg: Config, done: seq<Input>, batch: seq<Snapshot>, warmup: bool, oracle: nat -> Commits)
    requires cfg.Valid()
    ensures var (st, calls) := Feed(v, cfg, Run(v, cfg, done), batch, warmup, oracle);
      && |calls| <= |batch| && (batch != [] ==> calls != [])
      && (forall k :: 0 <= k < |calls| ==> calls[k] == Input(batch[k], warmup, oracle(batch[k].id)))
      && st == Run(v, cfg, done + calls)
      && (|calls| < |batch| ==> Latest(v, cfg, done + calls).failed)
    decreases |batch|
  {
    hide StepOn, Run, Latest;
    if batch == [] {
      assert done + [] == done;
    } else {
      var i := Input(batch[0], warmup, oracle(batch[0].id));
      RunOneMore(v, cfg, done, i);
      FeedTakesPrefix(v, cfg, done + [i], batch[1..], warmup, oracle);
      var rest := Feed(v, cfg, Run(v, cfg, done + [i]), batch[1..], warmup, oracle).1;
      assert done + [i] + rest == done + ([i] + rest);
    }
  }

  // ------------------------------------------------------------- at most once

  ghost predicate DistinctIds(rows: seq<Snapshot>) {
    forall i, j :: 0 <= i < j < |rows| ==> rows[i].id != rows[j].id
  }

  ghost predicate CallsDistinct(calls: seq<Input>) {
    forall i, j :: 0 <= i < j < |calls| ==> calls[i].s.id != calls[j].s.id
  }

  ghost predicate CallsBelow(calls: seq<Input>, rows: seq<Snapshot>, mark: nat) {
    forall k :: 0 <= k < |calls| ==> calls[k].s in rows && calls[k].s.ts <= mark
  }

  /** What every action keeps: the entry is the fold over the calls, the calls are for rows at
      or below the watermark, and the watermark is zero only while there are none. */
  ghost predicate Consistent(v: Vehicle, cfg: Config, sys: System)
    requires cfg.Valid()
  {
    && DistinctIds(sys.rows) && (forall r :: r in sys.rows ==> r.ts > 0)
    && match sys.entry
       case None => sys.calls == []
       case Some(st) =>
         && st == Run(v, cfg, sys.calls)
         && CallsBelow(sys.calls, sys.rows, st.lastTs)
         && (st.lastTs == 0 <==> sys.calls == [])
  }

  lemma {:induction false} NewerMembers(rows: seq<Snapshot>, after: nat)
    ensures forall r: Snapshot :: r in Newer(rows, after) <==> r in rows && Passes(r, after)
    ensures multiset(Newer(rows, after)) <= multiset(rows)
  {
    if rows != [] {
      var before, r := rows[..|rows| - 1], rows[|rows| - 1];
      NewerMembers(before, after);
      assert rows == before + [r];
    }
  }

  lemma TwiceInMultiset(p: seq<Snapshot>, i: int, j: int)
    requires 0 <= i < j < |p| && p[i] == p[j]
    ensures multiset(p)[p[i]] >= 2
  {
    assert p == p[..j] + [p[j]] + p[j + 1..];
    assert p[..j][i] == p[i] && p[i] in multiset(p[..j]);
  }

  lemma {:induction false} OnceInMultiset(rows: seq<Snapshot>, r: Snapshot)
    requires DistinctIds(rows)
    ensures multiset(rows)[r] <= 1
  {
    if rows != [] {
      var before := rows[..|rows| - 1];
      OnceInMultiset(before, r);
      assert rows == before + [rows[|rows| - 1]];
      if r == rows[|rows| - 1] { assert r !in before; }
    }
  }

  lemma ArrangementDistinct(p: seq<Snapshot>, rows: seq<Snapshot>)
    requires DistinctIds(rows) && multiset(p) <= multiset(rows)
    ensures DistinctIds(p) && forall r :: r in p ==> r in rows
  {
    forall r | r in p ensures r in rows { assert r in multiset(p); }
    forall i, j | 0 <= i < j < |p| ensures p[i].id != p[j].id {
      if p[i].id == p[j].id {
        assert p[i] in rows && p[j] in rows && p[i] == p[j];
        TwiceInMultiset(p, i, j);
        OnceInMultiset(rows, p[i]);
      }
    }
  }

  lemma RecentBatch(rows: seq<Snapshot>, n: nat, batch: seq<Snapshot>)
    requires DistinctIds(rows) && IsRecent(rows, n, batch)
    ensures DistinctIds(batch) && forall r :: r in batch ==> r in rows
  {
    var p :| Arranges(p, rows) && batch == LastN(p, n);
    ArrangementDistinct(p, rows);
  }

  lemma LaterBatch(rows: seq<Snapshot>, after: nat, batch: seq<Snapshot>)
    requires DistinctIds(rows) && IsAfter(rows, after, batch)
    ensures DistinctIds(batch) && forall r: Snapshot :: r in batch ==> r in rows && Passes(r, after) && after != 0
  {
    if after != 0 {
      var p :| Arranges(p, Newer(rows, after)) && batch == Capped(p);
      NewerMembers(rows, after);
      hide Newer, Passes;
      ArrangementDistinct(p, rows);
      forall r: Snapshot | r in batch ensures r in rows && Passes(r, after) {
        assert r in multiset(p);
        assert r in Newer(rows, after);
      }
    }
  }

  /** A legal batch holds distinct rows passing the watermark. */
  lemma LegalBatch(cfg: Config, sys: System, batch: seq<Snapshot>)
    requires DistinctIds(sys.rows) && Legal(cfg, sys, Sweep(batch))
    ensures DistinctIds(batch)
    ensures forall r :: r in batch ==> r in sys.rows && (sys.entry.Some? ==> Passes(r, sys.entry.value.lastTs) && sys.entry.value.lastTs != 0)
  {
    hide IsRecent, IsAfter, DistinctIds, Passes;
    if sys.entry.None? {
      RecentBatch(sys.rows, cfg.medianWindow, batch);
    } else {
      LaterBatch(sys.rows, sys.entry.value.lastTs, batch);
    }
  }

  /** The calls of a feed stay at or below the new watermark, and the old calls too. */
  lemma {:induction false} WatermarkCovers(v: Vehicle, cfg: Config, calls: seq<Input>)
    requires cfg.Valid()
    ensures forall k :: 0 <= k < |calls| ==> calls[k].s.ts <= Run(v, cfg, calls).lastTs
    ensures Run(v, cfg, calls).lastTs == 0 || exists k :: 0 <= k < |calls| && calls[k].s.ts == Run(v, cfg, calls).lastTs
  {
    hide StepOn;
    if calls != [] {
      var before, i := calls[..|calls| - 1], calls[|calls| - 1];
      WatermarkCovers(v, cfg, before);
      StepAdvancesWatermark(v, cfg, Run(v, cfg, before), i);
      if Run(v, cfg, before).lastTs > 0 {
        var k :| 0 <= k < |before| && before[k].s.ts == Run(v, cfg, before).lastTs;
        assert calls[k] == before[k];
      }
    }
  }

  /** Joining the calls of a batch of unseen rows to earlier calls keeps them distinct. */
  lemma JoinedCallsDistinct(rows: seq<Snapshot>, done: seq<Input>, fed: seq<Input>, batch: seq<Snapshot>, mark: nat)
    requires DistinctIds(rows) && CallsDistinct(done) && CallsBelow(done, rows, mark)
    requires |fed| <= |batch| && forall k :: 0 <= k < |fed| ==> fed[k].s == batch[k]
    requires DistinctIds(batch) && forall r: Snapshot :: r in batch ==> r in rows && (done != [] ==> r.ts > mark)
    ensures CallsDistinct(done + fed) && forall k :: 0 <= k < |done + fed| ==> (done + fed)[k].s in rows
  {
    var all := done + fed;
    forall k | 0 <= k < |all| ensures all[k].s in rows {
      if k >= |done| { assert all[k].s == batch[k - |done|]; }
    }
    forall i, j | 0 <= i < j < |all| ensures all[i].s.id != all[j].s.id {
      if j >= |done| {
        assert all[j].s == batch[j - |done|];
        if i >= |done| {
          assert batch[i - |done|].id != batch[j - |done|].id;
        } else {
          assert all[i] == done[i] && all[j].s in batch;
          SameIdSameRow(rows, all[i].s, all[j].s);
        }
      }
    }
  }

  /** A sweep appends the calls for a prefix of its batch. */
  lemma SweepFeedsPrefix(v: Vehicle, cfg: Config, oracle: nat -> Commits, sys: System, batch: seq<Snapshot>)
    requires cfg.Valid() && Consistent(v, cfg, sys)
    ensures var next := Apply(v, cfg, oracle, sys, Sweep(batch)); var n := |next.calls| - |sys.calls|;
      && sys.calls <= next.calls && n <= |batch| && (batch != [] ==> n > 0)
      && (forall k :: 0 <= k < n ==> next.calls[|sys.calls| + k].s == batch[k])
      && next.entry == Some(Run(v, cfg, next.calls))
  {
    hide StepOn, Run, Feed, DistinctIds, CallsBelow, Latest;
    RunOfNothing(v, cfg);
    FeedTakesPrefix(v, cfg, sys.calls, batch, sys.entry.None?, oracle);
    var fed := Feed(v, cfg, Run(v, cfg, sys.calls), batch, sys.entry.None?, oracle).1;
    assert Apply(v, cfg, oracle, sys, Sweep(batch)).calls == sys.calls + fed;
  }

  lemma SweepStaysConsistent(v: Vehicle, cfg: Config, oracle: nat -> Commits, sys: System, batch: seq<Snapshot>)
    requires cfg.Valid() && Consistent(v, cfg, sys) && Legal(cfg, sys, Sweep(batch))
    ensures Consistent(v, cfg, Apply(v, cfg, oracle, sys, Sweep(batch)))
  {
    hide StepOn, Run, Feed, Legal, DistinctIds;
    LegalBatch(cfg, sys, batch);
    SweepFeedsPrefix(v, cfg, oracle, sys, batch);
    var next := Apply(v, cfg, oracle, sys, Sweep(batch));
    forall k | 0 <= k < |next.calls| ensures next.calls[k].s in sys.rows {
      if k >= |sys.calls| { assert next.calls[|sys.calls| + (k - |sys.calls|)].s == batch[k - |sys.calls|]; }
    }
    FoldIsConsistent(v, cfg, next);
  }

  /** When every row's time is exact, a sweep feeds only rows not fed before. */
  lemma SweepStaysDistinct(v: Vehicle, cfg: Config, oracle: nat -> Commits, sys: System, batch: seq<Snapshot>)
    requires cfg.Valid() && Consistent(v, cfg, sys) && Legal(cfg, sys, Sweep(batch))
    requires Exact(sys.rows) && CallsDistinct(sys.calls)
    ensures CallsDistinct(Apply(v, cfg, oracle, sys, Sweep(batch)).calls)
  {
    hide StepOn, Run, Feed, Legal, Apply, DistinctIds, CallsDistinct;
    LegalBatch(cfg, sys, batch);
    SweepFeedsPrefix(v, cfg, oracle, sys, batch);
    var next := Apply(v, cfg, oracle, sys, Sweep(batch));
    var fed := next.calls[|sys.calls|..];
    assert forall k :: 0 <= k < |fed| ==> fed[k] == next.calls[|sys.calls| + k];
    assert sys.calls + fed == next.calls;
    if sys.entry.Some? {
      JoinedCallsDistinct(sys.rows, sys.calls, fed, batch, sys.entry.value.lastTs);
    } else {
      JoinedCallsDistinct(sys.rows, [], fed, batch, 0);
      assert [] + fed == next.calls;
    }
  }

  lemma FoldIsConsistent(v: Vehicle, cfg: Config, sys: System)
    requires cfg.Valid() && sys.entry == Some(Run(v, cfg, sys.calls))
    requires DistinctIds(sys.rows) && (forall r :: r in sys.rows ==> r.ts > 0)
    requires forall k :: 0 <= k < |sys.calls| ==> sys.calls[k].s in sys.rows
    ensures Consistent(v, cfg, sys)
  {
    hide Run, DistinctIds;
    WatermarkCovers(v, cfg, sys.calls);
    RunOfNothing(v, cfg);
    if sys.calls != [] {
      assert sys.calls[0].s in sys.rows;
    }
  }

  lemma SameIdSameRow(rows: seq<Snapshot>, a: Snapshot, b: Snapshot)
    requires DistinctIds(rows) && a in rows && b in rows && a != b
    ensures a.id != b.id
  {
  }

  lemma RunOfNothing(v: Vehicle, cfg: Config)
    requires cfg.Valid()
    ensures Run(v, cfg, []) == INITIAL
  {
  }

  lemma StepStaysConsistent(v: Vehicle, cfg: Config, oracle: nat -> Commits, sys: System, a: Action)
    requires cfg.Valid() && Consistent(v, cfg, sys) && Legal(cfg, sys, a)
    ensures Consistent(v, cfg, Apply(v, cfg, oracle, sys, a))
  {
    hide Run;
    RunOfNothing(v, cfg);
    if a.Sweep? { SweepStaysConsistent(v, cfg, oracle, sys, a.batch); }
  }

  /** At most once. Whatever arrives, however late, and however sweeps and failures fall, the entry
      is always the fold of the pipeline over the calls made; and as long as every stored time is
      exact, no snapshot goes through the pipeline twice. */
  lemma {:induction false} AtMostOnce(v: Vehicle, cfg: Config, oracle: nat -> Commits, sys: System, actions: seq<Action>)
    requires cfg.Valid() && Consistent(v, cfg, sys) && CallsDistinct(sys.calls) && LegalPlay(v, cfg, oracle, sys, actions)
    ensures var end := Play(v, cfg, oracle, sys, actions);
      && Consistent(v, cfg, end) && sys.rows <= end.rows
      && (Exact(end.rows) ==> CallsDistinct(end.calls))
      && (end.entry.Some? ==> end.entry.value == Run(v, cfg, end.calls))
    ensures Consistent(v, cfg, START) && CallsDistinct(START.calls)
  {
    hide Run, Legal, Feed;
    AlwaysConsistent(v, cfg, oracle, sys, actions);
    hide Apply, CallsDistinct;
    if actions != [] {
      var before, a := actions[..|actions| - 1], actions[|actions| - 1];
      AtMostOnce(v, cfg, oracle, sys, before);
      var last := Play(v, cfg, oracle, sys, before);
      AlwaysConsistent(v, cfg, oracle, sys, before);
      StepKeepsCalls(v, cfg, oracle, last, a);
      if a.Sweep? && Exact(last.rows) { SweepStaysDistinct(v, cfg, oracle, last, a.batch); }
    }
    assert Consistent(v, cfg, START) && CallsDistinct(START.calls) by { StartConsistent(v, cfg); }
  }

  lemma StartConsistent(v: Vehicle, cfg: Config)
    requires cfg.Valid()
    ensures Consistent(v, cfg, START) && CallsDistinct(START.calls)
  {
  }

  lemma StepKeepsCalls(v: Vehicle, cfg: Config, oracle: nat -> Commits, sys: System, a: Action)
    requires cfg.Valid()
    ensures var next := Apply(v, cfg, oracle, sys, a);
      sys.rows <= next.rows && (!a.Sweep? ==> next.calls == sys.calls) && (Exact(next.rows) ==> Exact(sys.rows))
  {
    hide Feed;
  }

  lemma {:induction false} AlwaysConsistent(v: Vehicle, cfg: Config, oracle: nat -> Commits, sys: System, actions: seq<Action>)
    requires cfg.Valid() && Consistent(v, cfg, sys) && LegalPlay(v, cfg, oracle, sys, actions)
    ensures Consistent(v, cfg, Play(v, cfg, oracle, sys, actions))
  {
    hide Apply, Run, Legal;
    if actions != [] {
      var before := actions[..|actions| - 1];
      AlwaysConsistent(v, cfg, oracle, sys, before);
      StepStaysConsistent(v, cfg, oracle, Play(v, cfg, oracle, sys, before), actions[|actions| - 1]);
    }
  }
}
