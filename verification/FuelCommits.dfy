/**
 * Failing commits: what a run loses when its transactions fail, and what it never does.
 */
module FuelCommits {
  import opened Common
  import opened FuelModel
  import opened FuelRuns

  /** The same call with its level transaction committing. */
  function Mended(i: Input): Input {
    i.(ok := i.ok.(level := true))
  }

  function MendedRun(run: seq<Input>): seq<Input> {
    seq(|run|, k requires 0 <= k < |run| => Mended(run[k]))
  }

  lemma StepIgnoresLevelCommit(v: Vehicle, cfg: Config, st: State, i: Input)
    requires cfg.Valid()
    ensures var o, whole := StepOn(v, cfg, st, i), StepOn(v, cfg, st, Mended(i));
      && o.st == whole.st && o.raised == whole.raised
      && o.committed <= whole.committed
      && (whole.failed <==> OdoFails(cfg, st, i)) && (!whole.failed ==> whole.committed == whole.raised)
  {
    hide LevelStage, Enter, MoveOdometer, HooksFor, RollsBack;
  }

  lemma {:induction false} SubsequenceOfLonger<T>(a: seq<T>, b: seq<T>, x: seq<T>, y: seq<T>)
    requires Subsequence(a, b) && x <= y
    ensures Subsequence(a + x, b + y)
    decreases |y|
  {
    if y == [] {
      assert a + x == a && b + y == b;
    } else {
      var last := y[|y| - 1];
      if x == y {
        SubsequenceOfLonger(a, b, x[..|x| - 1], y[..|y| - 1]);
        SubsequenceGrows(a + x[..|x| - 1], b + y[..|y| - 1], last);
        assert a + x == a + x[..|x| - 1] + [last] && b + y == b + y[..|y| - 1] + [last];
      } else {
        assert x <= y[..|y| - 1];
        SubsequenceOfLonger(a, b, x, y[..|y| - 1]);
        SubsequenceGrows(a + x, b + y[..|y| - 1], last);
        assert b + y == b + y[..|y| - 1] + [last];
      }
    }
  }

  /** Failed level commits lose events but never distort the run: for every pattern of
      failures the state is the one the failure-free run reaches, the same events are raised,
      and the committed events are those of the failure-free run with some left out. */
  lemma {:induction false} LevelFailuresOnlyLose(v: Vehicle, cfg: Config, run: seq<Input>)
    requires cfg.Valid()
    ensures var whole := MendedRun(run);
      && Run(v, cfg, run) == Run(v, cfg, whole)
      && Raised(v, cfg, run) == Raised(v, cfg, whole)
      && Subsequence(Committed(v, cfg, run), Committed(v, cfg, whole))
  {
    hide StepOn;
    if run != [] {
      var before, i := run[..|run| - 1], run[|run| - 1];
      var whole := MendedRun(run);
      LevelFailuresOnlyLose(v, cfg, before);
      assert whole[..|whole| - 1] == MendedRun(before) && whole[|whole| - 1] == Mended(i);
      StepIgnoresLevelCommit(v, cfg, Run(v, cfg, before), i);
      SubsequenceOfLonger(Committed(v, cfg, before), Committed(v, cfg, MendedRun(before)),
                          Latest(v, cfg, run).committed, Latest(v, cfg, whole).committed);
    }
  }

  // ------------------------------------------------------------- hooks

  /** The event that a hook call reports on. */
  predicate Reports(h: Hook, e: Event) {
    match h
    case ScoreHook(_) => e.behaviour.Some?
    case SiphonHook(_, _, drop, _) => e.kind == SiphonConfirmed && e.estimated == drop
  }

  /** Hooks run for committed events only, each for the vehicle's current driver, and every
      committed event that affects a known driver or confirms a siphon does run its hook. */
  lemma HooksFollowCommits(v: Vehicle, cfg: Config, st: State, i: Input)
    requires cfg.Valid()
    ensures var o := StepOn(v, cfg, st, i);
      && (forall h :: h in o.hooks ==> h.driverID == o.st.driverID && exists e :: e in o.committed && Reports(h, e))
      && (forall e :: e in o.committed && e.behaviour.Some? && o.st.driverID != "" ==> ScoreHook(o.st.driverID) in o.hooks)
      && (forall e :: e in o.committed && e.kind == SiphonConfirmed ==>
            SiphonHook(i.s.tripID, o.st.driverID, e.estimated, cfg.siphonStop / 60) in o.hooks)
  {
    hide Smooth, Evaluate, Litres, Enter, HooksFor;
    var here := Enter(cfg, st, i.s, i.warmup);
    var at := AtLevel(cfg, st, i);
    var rollback := RollbackEvents(cfg, here, i.s);
    HooksForReport(cfg, at, i.s, rollback);
    if Reaches(v, cfg, st, i) {
      var (next, events) := LevelStage(v, cfg, at, i.s, here.lastOdometer);
      LevelStageKeepsContext(v, cfg, at, i.s, here.lastOdometer);
      HooksForReport(cfg, next, i.s, events);
    }
  }

  lemma LevelStageKeepsContext(v: Vehicle, cfg: Config, at: State, s: Snapshot, odoBefore: real)
    requires cfg.Valid()
    ensures var (next, events) := LevelStage(v, cfg, at, s, odoBefore);
      && next.driverID == at.driverID && next.lastOdometer == at.lastOdometer && next.lastTs == at.lastTs
      && |events| <= 1
  {
    hide Litres, Classify, BaselineFollows, Smooth;
  }

  lemma HooksForReport(cfg: Config, st: State, s: Snapshot, events: seq<Event>)
    requires |events| <= 1
    ensures var hooks := HooksFor(cfg, st, s, events);
      && (forall h :: h in hooks ==> h.driverID == st.driverID && exists e :: e in events && Reports(h, e))
      && (forall e :: e in events && e.behaviour.Some? && st.driverID != "" ==> ScoreHook(st.driverID) in hooks)
      && (forall e :: e in events && e.kind == SiphonConfirmed ==>
            SiphonHook(s.tripID, st.driverID, e.estimated, cfg.siphonStop / 60) in hooks)
  {
    if events != [] {
      assert events[0] in events;
    }
  }

  // ------------------------------------------------------------- the odometer transaction

  /** The reading is behind the guard by more than the tolerance. */
  predicate Behind(cfg: Config, guard: real, s: Snapshot) {
    0.0 < s.odometer < guard - cfg.odoToleranceKm
  }

  /** The call cannot move the guard: it has no odometer reading, or is behind the guard and its
      rollback does not commit. */
  predicate LeavesGuard(cfg: Config, guard: real, i: Input) {
    i.s.odometer <= 0.0 || (Behind(cfg, guard, i.s) && !i.ok.odo)
  }

  /** A call whose rollback does not commit reports nothing and leaves guard and levels as they were. */
  lemma FailedRollbackKeepsGuard(v: Vehicle, cfg: Config, st: State, i: Input)
    requires cfg.Valid() && OdoFails(cfg, st, i)
    ensures var o := StepOn(v, cfg, st, i);
      && o.failed && o.committed == [] && o.hooks == [] && o.st.lastOdometer == st.lastOdometer
      && o.st.lastLevel == st.lastLevel && o.st.pendingSpike == st.pendingSpike
  {
    RollbackStep(v, cfg, st, i);
  }

  lemma GuardStep(v: Vehicle, cfg: Config, st: State, i: Input)
    requires cfg.Valid() && st.lastOdometer > 0.0 && LeavesGuard(cfg, st.lastOdometer, i)
    ensures StepOn(v, cfg, st, i).st.lastOdometer == st.lastOdometer
  {
    hide StepOn, LevelStage;
    if i.s.odometer > 0.0 {
      RollbackStep(v, cfg, st, i);
    } else {
      StepShape(v, cfg, st, i);
      LevelStageKeepsContext(v, cfg, AtLevel(cfg, st, i), i.s, Enter(cfg, st, i.s, i.warmup).lastOdometer);
    }
  }

  lemma {:induction false} GuardHolds(v: Vehicle, cfg: Config, base: seq<Input>, stretch: seq<Input>)
    requires cfg.Valid() && Run(v, cfg, base).lastOdometer > 0.0
    requires forall i :: i in stretch ==> LeavesGuard(cfg, Run(v, cfg, base).lastOdometer, i)
    ensures Run(v, cfg, base + stretch).lastOdometer == Run(v, cfg, base).lastOdometer
  {
    hide StepOn, LeavesGuard;
    if stretch == [] {
      assert base + stretch == base;
    } else {
      var shorter, i := stretch[..|stretch| - 1], stretch[|stretch| - 1];
      GuardHolds(v, cfg, base, shorter);
      GuardStep(v, cfg, Run(v, cfg, base + shorter), i);
      assert i in stretch;
      assert (base + stretch)[..|base + stretch| - 1] == base + shorter;
    }
  }

  /** A rollback comes up again until it commits. Through any stretch of calls that are behind the
      guard and do not commit, or carry no odometer reading, the guard keeps its old reading, and the
      next call behind it raises the rollback against that reading; it moves the guard to
      its own reading if it commits, and otherwise leaves everything to the next. */
  lemma RollbackRecursUntilCommitted(v: Vehicle, cfg: Config, base: seq<Input>, stretch: seq<Input>, later: Input)
    requires cfg.Valid() && Run(v, cfg, base).lastOdometer > 0.0
    requires forall i :: i in stretch ==> LeavesGuard(cfg, Run(v, cfg, base).lastOdometer, i)
    requires Behind(cfg, Run(v, cfg, base).lastOdometer, later.s)
    ensures var guard, st := Run(v, cfg, base).lastOdometer, Run(v, cfg, base + stretch);
      var o := StepOn(v, cfg, st, later);
      && st.lastOdometer == guard
      && o.raised != [] && o.raised[0].kind == OdometerRollback && o.raised[0].before == guard && o.raised[0].after == later.s.odometer
      && (if later.ok.odo then o.committed != [] && o.committed[0] == o.raised[0] && o.st.lastOdometer == later.s.odometer
          else o.failed && o.committed == [] && o.st.lastOdometer == guard)
  {
    hide StepOn, LeavesGuard, Run;
    GuardHolds(v, cfg, base, stretch);
    RollbackStep(v, cfg, Run(v, cfg, base + stretch), later);
  }

  lemma RollbackStep(v: Vehicle, cfg: Config, st: State, i: Input)
    requires cfg.Valid() && RollsBack(cfg, st, i.s)
    ensures var o := StepOn(v, cfg, st, i);
      && o.raised != [] && o.raised[0].kind == OdometerRollback
      && o.raised[0].before == st.lastOdometer && o.raised[0].after == i.s.odometer
      && if i.ok.odo then
           o.committed != [] && o.committed[0] == o.raised[0] && o.st.lastOdometer == i.s.odometer
         else
           o.failed && o.committed == [] && o.hooks == []
             && o.st.lastOdometer == st.lastOdometer && o.st.lastLevel == st.lastLevel && o.st.pendingSpike == st.pendingSpike
  {
    hide LevelStage, HooksFor;
    LevelStageKeepsContext(v, cfg, AtLevel(cfg, st, i), i.s, Enter(cfg, st, i.s, i.warmup).lastOdometer);
  }
}
