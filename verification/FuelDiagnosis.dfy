/**
 * When the engine names a siphon, and when an abnormal drain: what the stop timer stands for
 * over a whole run, and what a missing odometer does to a moving vehicle.
 */
module FuelDiagnosis {
  import opened Common
  import opened Medians
  import opened FuelModel
  import opened FuelRuns
  import opened FuelLedger

  predicate Raises(events: seq<Event>, kind: EventType) {
    exists e :: e in events && e.kind == kind
  }

  /** What the call reports on the level, given the smoothed level it acts on. */
  function Verdict(v: Vehicle, cfg: Config, st: State, i: Input): Option<EventType>
    requires cfg.Valid() && Acts(v, cfg, st, i)
  {
    var at := AtLevel(cfg, st, i);
    Classify(cfg, at, i.s, Median(Smooth(cfg, at, Litres(v, i.s)).window), Enter(cfg, st, i.s, i.warmup).lastOdometer)
  }

  lemma LevelStageReports(v: Vehicle, cfg: Config, at: State, s: Snapshot, odoBefore: real, kind: EventType)
    requires cfg.Valid()
    ensures var smooth := Smooth(cfg, at, Litres(v, s));
      Raises(LevelStage(v, cfg, at, s, odoBefore).1, kind) <==>
        smooth.Evaluated? && Classify(cfg, at, s, Median(smooth.window), odoBefore) == Some(kind)
  {
    var smooth := Smooth(cfg, at, Litres(v, s));
    FirstIffNoLevel(cfg, at, Litres(v, s));
    hide Litres, Smooth, Raises, Evaluate;
    if smooth.Evaluated? {
      EvaluateReports(v, cfg, at, s, smooth.window, odoBefore, kind);
    } else {
      assert !Raises([], kind) by { NothingRaised(kind); }
    }
  }

  lemma NothingRaised(kind: EventType)
    ensures !Raises([], kind)
  {
  }

  lemma OneRaised(e: Event, kind: EventType)
    ensures Raises([e], kind) <==> e.kind == kind
  {
    assert e in [e];
  }

  lemma EventOfKind(cfg: Config, kind: EventType, baseline: real, smoothed: real, odoBefore: real)
    ensures LevelEvent(cfg, kind, baseline, smoothed, odoBefore).kind == kind
  {
  }

  lemma EvaluateReports(v: Vehicle, cfg: Config, at: State, s: Snapshot, w: seq<real>, odoBefore: real, kind: EventType)
    requires w != [] && at.lastLevel.Some?
    ensures Raises(Evaluate(v, cfg, at, s, w, odoBefore).1, kind) <==> Classify(cfg, at, s, Median(w), odoBefore) == Some(kind)
  {
    SameVerdict(cfg, at, w, s, Median(w), odoBefore);
    hide Classify, BaselineFollows, Median, LevelEvent, Raises, StopStart;
    match Classify(cfg, at, s, Median(w), odoBefore)
    case None => NothingRaised(kind);
    case Some(k) =>
      EventOfKind(cfg, k, at.baseline.value, Median(w), odoBefore);
      OneRaised(LevelEvent(cfg, k, at.baseline.value, Median(w), odoBefore), kind);
  }

  /** Detection sees the new window, but judges by baseline, timer and trip alone. */
  lemma SameVerdict(cfg: Config, at: State, w: seq<real>, s: Snapshot, m: real, odoBefore: real)
    requires at.lastLevel.Some?
    ensures Classify(cfg, at.(window := w, pendingSpike := None), s, m, odoBefore) == Classify(cfg, at, s, m, odoBefore)
    ensures Classify(cfg, at, s, m, odoBefore) != Some(OdometerRollback)
  {
    hide ExpectedBurn;
  }

  lemma RaisesEither(a: seq<Event>, b: seq<Event>, kind: EventType)
    ensures Raises(a + b, kind) <==> Raises(a, kind) || Raises(b, kind)
  {
    if Raises(a, kind) { var e :| e in a && e.kind == kind; assert e in a + b; }
    if Raises(b, kind) { var e :| e in b && e.kind == kind; assert e in a + b; }
  }

  lemma OnlyRollback(cfg: Config, st: State, s: Snapshot, kind: EventType)
    ensures Raises(RollbackEvents(cfg, st, s), kind) ==> kind == OdometerRollback
  {
  }

  /** Apart from odometer rollbacks a call reports exactly its verdict, and nothing unless it acts. */
  lemma ReportsItsVerdict(v: Vehicle, cfg: Config, st: State, i: Input, kind: EventType)
    requires cfg.Valid() && kind != OdometerRollback
    ensures Raises(StepOn(v, cfg, st, i).raised, kind) <==> Acts(v, cfg, st, i) && Verdict(v, cfg, st, i) == Some(kind)
  {
    StepShape(v, cfg, st, i);
    hide StepOn, Litres, Classify, LevelStage, AtLevel, Enter, RollbackEvents, Raises, OdoFails, Smooth, Median;
    var here := Enter(cfg, st, i.s, i.warmup);
    OnlyRollback(cfg, here, i.s, kind);
    LevelStageReports(v, cfg, AtLevel(cfg, st, i), i.s, here.lastOdometer, kind);
    RaisesEither(RollbackEvents(cfg, here, i.s), LevelStage(v, cfg, AtLevel(cfg, st, i), i.s, here.lastOdometer).1, kind);
  }

  // ------------------------------------------------------------- the stop timer

  /** The call's reading was taken into account at once, not held back as a spike. */
  predicate Tracked(v: Vehicle, cfg: Config, st: State, i: Input)
    requires cfg.Valid()
  {
    Reaches(v, cfg, st, i) && !Smooth(cfg, AtLevel(cfg, st, i), Litres(v, i.s)).Held?
  }

  /** From call k to the end of the run every reading taken into account was stationary, with no gap. */
  ghost predicate StoppedSince(v: Vehicle, cfg: Config, run: seq<Input>, k: nat)
    requires cfg.Valid() && k < |run|
    decreases |run|
  {
    var before, i := run[..|run| - 1], run[|run| - 1];
    var st := Run(v, cfg, before);
    if k == |run| - 1 then Tracked(v, cfg, st, i) && Stationary(cfg, i.s)
    else StoppedSince(v, cfg, before, k) && !Gap(cfg, st, i) && (Tracked(v, cfg, st, i) ==> Stationary(cfg, i.s))
  }

  /** Snapshots come with set timestamps that never go back. */
  ghost predicate InTime(run: seq<Input>) {
    (forall k :: 0 <= k < |run| ==> run[k].s.ts > 0) && forall j, k :: 0 <= j < k < |run| ==> run[j].s.ts <= run[k].s.ts
  }

  function TimerAfter(v: Vehicle, cfg: Config, st: State, i: Input): nat
    requires cfg.Valid()
  {
    var running := if Gap(cfg, st, i) then 0 else st.stopStart;
    if !Tracked(v, cfg, st, i) then running
    else if !Stationary(cfg, i.s) then 0
    else if running == 0 then i.s.ts else running
  }

  lemma LevelStageTimer(v: Vehicle, cfg: Config, at: State, s: Snapshot, odoBefore: real)
    requires cfg.Valid()
    ensures var next := LevelStage(v, cfg, at, s, odoBefore).0; var smooth := Smooth(cfg, at, Litres(v, s));
      && next.lastLevel.Some?
      && next.stopStart ==
           if smooth.First? then (if Stationary(cfg, s) then s.ts else at.stopStart)
           else if smooth.Held? then at.stopStart
           else StopStart(cfg, at, s)
  {
    hide Litres, Classify, BaselineFollows, Deviates, Median, LevelEvent;
  }

  lemma EnterTimer(cfg: Config, st: State, i: Input)
    ensures AtLevel(cfg, st, i).stopStart == Enter(cfg, st, i.s, i.warmup).stopStart == if Gap(cfg, st, i) then 0 else st.stopStart
    ensures AtLevel(cfg, st, i).lastLevel == Enter(cfg, st, i.s, i.warmup).lastLevel == st.lastLevel
    ensures AtLevel(cfg, st, i).tripActive == i.s.Active()
    ensures MoveOdometer(Enter(cfg, st, i.s, i.warmup), i.s) == AtLevel(cfg, st, i)
  {
  }

  lemma TimerStep(v: Vehicle, cfg: Config, st: State, i: Input)
    requires cfg.Valid() && (st.lastLevel.None? ==> st.stopStart == 0)
    ensures var next := StepOn(v, cfg, st, i).st;
      next.stopStart == TimerAfter(v, cfg, st, i) && (next.lastLevel.None? ==> next.stopStart == 0)
  {
    StepShape(v, cfg, st, i);
    EnterTimer(cfg, st, i);
    LevelStageTimer(v, cfg, AtLevel(cfg, st, i), i.s, Enter(cfg, st, i.s, i.warmup).lastOdometer);
    FirstIffNoLevel(cfg, AtLevel(cfg, st, i), Litres(v, i.s));
    hide StepOn, Litres, LevelStage, AtLevel, Enter, RollbackEvents, OdoFails, Smooth, Gap, Stationary, MoveOdometer;
  }

  /** A reading held back as a spike leaves the timer running, even one of a moving vehicle. */
  lemma HeldReadingKeepsTimer(v: Vehicle, cfg: Config, st: State, i: Input)
    requires cfg.Valid() && Reaches(v, cfg, st, i) && Smooth(cfg, AtLevel(cfg, st, i), Litres(v, i.s)).Held? && !Gap(cfg, st, i)
    ensures StepOn(v, cfg, st, i).st.stopStart == st.stopStart
  {
    EnterTimer(cfg, st, i);
    FirstIffNoLevel(cfg, AtLevel(cfg, st, i), Litres(v, i.s));
    StepShape(v, cfg, st, i);
    LevelStageTimer(v, cfg, AtLevel(cfg, st, i), i.s, Enter(cfg, st, i.s, i.warmup).lastOdometer);
    hide StepOn, Litres, LevelStage, AtLevel, Enter, RollbackEvents, OdoFails, Smooth, Gap, Stationary, MoveOdometer;
  }

  /** The timer never starts before the stop: when it runs, it shows the time of a reading since
      which the vehicle has been stationary. */
  lemma {:induction false} TimerIsSound(v: Vehicle, cfg: Config, run: seq<Input>)
    requires cfg.Valid()
    ensures var st := Run(v, cfg, run);
      && (st.lastLevel.None? ==> st.stopStart == 0)
      && (st.stopStart != 0 ==> exists k: nat :: k < |run| && StoppedSince(v, cfg, run, k) && run[k].s.ts == st.stopStart)
  {
    hide StepOn, Tracked, Gap;
    if run != [] {
      var n := |run| - 1;
      var before, st := run[..n], Run(v, cfg, run[..n]);
      TimerIsSound(v, cfg, before);
      TimerStep(v, cfg, st, run[n]);
      if Run(v, cfg, run).stopStart != 0 {
        if st.stopStart != 0 && Run(v, cfg, run).stopStart == st.stopStart && !Gap(cfg, st, run[n]) {
          var k: nat :| k < n && StoppedSince(v, cfg, before, k) && before[k].s.ts == st.stopStart;
          assert StoppedSince(v, cfg, run, k) && run[k].s.ts == st.stopStart;
        } else {
          assert StoppedSince(v, cfg, run, n);
        }
      }
    }
  }

  /** Nor does it start late: it covers every stop still going on. */
  lemma {:induction false} TimerIsComplete(v: Vehicle, cfg: Config, run: seq<Input>, k: nat)
    requires cfg.Valid() && InTime(run) && k < |run| && StoppedSince(v, cfg, run, k)
    ensures 0 < Run(v, cfg, run).stopStart <= run[k].s.ts
    decreases |run|
  {
    hide StepOn, Tracked, Gap;
    var n := |run| - 1;
    var before, st := run[..n], Run(v, cfg, run[..n]);
    TimerIsSound(v, cfg, before);
    TimerStep(v, cfg, st, run[n]);
    if k < n {
      TimerIsComplete(v, cfg, before, k);
    } else if st.stopStart != 0 {
      var j: nat :| j < n && StoppedSince(v, cfg, before, j) && before[j].s.ts == st.stopStart;
      assert run[j].s.ts <= run[n].s.ts;
    }
  }

  /** A siphon is confirmed exactly when a reading is acted on during an active trip, the level is
      the siphon threshold below the baseline, and every reading taken into account has been
      stationary, without a gap, since one at least the siphon time earlier. */
  lemma SiphonIffLongStop(v: Vehicle, cfg: Config, run: seq<Input>)
    requires cfg.Valid() && InTime(run) && run != []
    ensures var st, i := Run(v, cfg, run[..|run| - 1]), run[|run| - 1];
      Raises(Latest(v, cfg, run).raised, SiphonConfirmed) <==>
        && Acts(v, cfg, st, i) && i.s.Active()
        && AtLevel(cfg, st, i).baseline.value - Run(v, cfg, run).lastLevel.value >= cfg.siphonThresholdL
        && exists k: nat :: k < |run| && StoppedSince(v, cfg, run, k) && i.s.ts - run[k].s.ts >= cfg.siphonStop
  {
    hide StepOn, AtLevel, Litres, Gap;
    var n := |run| - 1;
    var st, i, end := Run(v, cfg, run[..n]), run[n], Run(v, cfg, run);
    ReportsItsVerdict(v, cfg, st, i, SiphonConfirmed);
    if Acts(v, cfg, st, i) {
      TimerIsSound(v, cfg, run[..n]);
      TimerIsSound(v, cfg, run);
      TimerStep(v, cfg, st, i);
      SiphonVerdict(v, cfg, st, i);
      hide Verdict, Run, Acts;
      forall k: nat | k < |run| && StoppedSince(v, cfg, run, k) ensures 0 < end.stopStart <= run[k].s.ts && Stationary(cfg, i.s) {
        TimerIsComplete(v, cfg, run, k);
        StillStopped(v, cfg, run, k);
      }
    }
  }

  lemma StillStopped(v: Vehicle, cfg: Config, run: seq<Input>, k: nat)
    requires cfg.Valid() && k < |run| && StoppedSince(v, cfg, run, k)
    requires Tracked(v, cfg, Run(v, cfg, run[..|run| - 1]), run[|run| - 1])
    ensures Stationary(cfg, run[|run| - 1].s)
  {
    hide Tracked, Run, Gap;
  }

  lemma LevelStageLevel(v: Vehicle, cfg: Config, at: State, s: Snapshot, odoBefore: real)
    requires cfg.Valid()
    ensures var smooth := Smooth(cfg, at, Litres(v, s));
      smooth.Evaluated? ==> LevelStage(v, cfg, at, s, odoBefore).0.lastLevel == Some(Median(smooth.window))
  {
    hide Litres, Detect, Deviates, Median;
  }

  lemma SiphonBranch(cfg: Config, at: State, s: Snapshot, m: real, odoBefore: real)
    requires cfg.Valid() && at.baseline.Some?
    ensures Classify(cfg, at, s, m, odoBefore) == Some(SiphonConfirmed) <==>
      && Stationary(cfg, s) && at.tripActive && StopStart(cfg, at, s) != 0 && s.ts - StopStart(cfg, at, s) >= cfg.siphonStop
      && at.baseline.value - m >= cfg.siphonThresholdL
  {
    hide ExpectedBurn, Stationary, StopStart;
  }

  /** The verdict in terms of the timer the call leaves behind. */
  lemma SiphonVerdict(v: Vehicle, cfg: Config, st: State, i: Input)
    requires cfg.Valid() && Acts(v, cfg, st, i) && (st.lastLevel.None? ==> st.stopStart == 0)
    ensures var next := StepOn(v, cfg, st, i).st;
      && Tracked(v, cfg, st, i) && next.lastLevel.Some? && AtLevel(cfg, st, i).baseline.Some?
      && (Verdict(v, cfg, st, i) == Some(SiphonConfirmed) <==>
          && Stationary(cfg, i.s) && i.s.Active() && next.stopStart != 0 && i.s.ts - next.stopStart >= cfg.siphonStop
          && AtLevel(cfg, st, i).baseline.value - next.lastLevel.value >= cfg.siphonThresholdL)
  {
    StepShape(v, cfg, st, i);
    EnterTimer(cfg, st, i);
    var at, odoBefore := AtLevel(cfg, st, i), Enter(cfg, st, i.s, i.warmup).lastOdometer;
    FirstIffNoLevel(cfg, at, Litres(v, i.s));
    hide StepOn, Enter, AtLevel, Litres, LevelStage, Smooth, Median, Classify, Stationary, StopStart, RollbackEvents, OdoFails;
    LevelStageTimer(v, cfg, at, i.s, odoBefore);
    LevelStageLevel(v, cfg, at, i.s, odoBefore);
    SiphonBranch(cfg, at, i.s, Median(Smooth(cfg, at, Litres(v, i.s)).window), odoBefore);
  }

  // ------------------------------------------------------------- drains without distance

  /** The distance the drain check goes by. */
  function Distance(cfg: Config, st: State, i: Input): real {
    var odoBefore := Enter(cfg, st, i.s, i.warmup).lastOdometer;
    if i.s.odometer > 0.0 && odoBefore > 0.0 then i.s.odometer - odoBefore else 0.0
  }

  /** The consumption allowed for a distance. */
  function Allowance(cfg: Config, distance: real): real {
    distance * cfg.abnormalLPerKm * (1.0 + cfg.abnormalMarginPct / 100.0)
  }

  predicate DrivingInTransit(cfg: Config, i: Input) {
    !Stationary(cfg, i.s) && i.s.Status() == InTransit
  }

  /** How far the level the call acted on lies below the baseline it was judged by. */
  function Drop(v: Vehicle, cfg: Config, st: State, i: Input): real
    requires cfg.Valid() && Acts(v, cfg, st, i)
  {
    var at := AtLevel(cfg, st, i);
    at.baseline.value - Median(Smooth(cfg, at, Litres(v, i.s)).window)
  }

  /** With the rates a configuration can hold, the allowance has the sign of the distance, or is
      nothing when the consumption per kilometre is. */
  lemma AllowanceSign(cfg: Config, distance: real)
    requires cfg.abnormalLPerKm >= 0.0 && cfg.abnormalMarginPct >= 0.0
    ensures Allowance(cfg, distance) > 0.0 <==> distance > 0.0 && cfg.abnormalLPerKm > 0.0
    ensures distance == 0.0 ==> Allowance(cfg, distance) == 0.0
  {
    var c := cfg.abnormalLPerKm * (1.0 + cfg.abnormalMarginPct / 100.0);
    assert 1.0 + cfg.abnormalMarginPct / 100.0 >= 1.0;
    assert c >= 0.0 && (c > 0.0 <==> cfg.abnormalLPerKm > 0.0) && Allowance(cfg, distance) == distance * c;
    if distance > 0.0 {
      assert c > 0.0 ==> distance * c > 0.0;
    } else {
      assert (-distance) * c >= 0.0;
    }
  }

  lemma DrainVerdict(cfg: Config, at: State, s: Snapshot, m: real, odoBefore: real, distance: real)
    requires at.baseline.Some? && at.tripActive && !Stationary(cfg, s) && s.Status() == InTransit
    requires distance == if s.odometer > 0.0 && odoBefore > 0.0 then s.odometer - odoBefore else 0.0
    ensures Classify(cfg, at, s, m, odoBefore) == Some(AbnormalDrain) <==> at.baseline.value - m >= Allowance(cfg, distance)
  {
    assert ExpectedBurn(odoBefore, s, cfg) == Allowance(cfg, distance);
    hide ExpectedBurn, Allowance;
  }

  /** In transit an abnormal drain is reported exactly when the drop reaches the consumption
      allowed for the distance, whatever the configured rates. */
  lemma DrainIffBeyondAllowance(v: Vehicle, cfg: Config, st: State, i: Input)
    requires cfg.Valid() && Acts(v, cfg, st, i) && DrivingInTransit(cfg, i)
    ensures Raises(StepOn(v, cfg, st, i).raised, AbnormalDrain) <==> Drop(v, cfg, st, i) >= Allowance(cfg, Distance(cfg, st, i))
  {
    ReportsItsVerdict(v, cfg, st, i, AbnormalDrain);
    EnterTimer(cfg, st, i);
    hide StepOn, Raises, Enter, AtLevel, Litres, Smooth, Median, Allowance, Classify, Stationary;
    var at := AtLevel(cfg, st, i);
    DrainVerdict(cfg, at, i.s, Median(Smooth(cfg, at, Litres(v, i.s)).window), Enter(cfg, st, i.s, i.warmup).lastOdometer, Distance(cfg, st, i));
  }

  /** Every level in transit that has not risen is reported as draining, one that has not moved
      included, exactly when the odometer shows no distance (missing, unchanged or gone back) or
      the configured consumption is zero. */
  lemma SteadyLevelIsDrainIffNoDistance(v: Vehicle, cfg: Config, st: State, i: Input)
    requires cfg.Valid() && cfg.abnormalLPerKm >= 0.0 && cfg.abnormalMarginPct >= 0.0
    requires Acts(v, cfg, st, i) && DrivingInTransit(cfg, i)
    ensures Drop(v, cfg, st, i) == 0.0 ==>
      (Raises(StepOn(v, cfg, st, i).raised, AbnormalDrain) <==> Distance(cfg, st, i) <= 0.0 || cfg.abnormalLPerKm == 0.0)
    ensures Drop(v, cfg, st, i) >= 0.0 && (Distance(cfg, st, i) <= 0.0 || cfg.abnormalLPerKm == 0.0) ==>
      Raises(StepOn(v, cfg, st, i).raised, AbnormalDrain)
  {
    DrainIffBeyondAllowance(v, cfg, st, i);
    AllowanceSign(cfg, Distance(cfg, st, i));
    hide Drop, Distance, Raises, StepOn, Allowance, Acts, DrivingInTransit;
  }
}
