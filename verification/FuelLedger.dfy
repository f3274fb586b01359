/**
 * Litre accounting over whole runs of the pipeline: where every litre of baseline movement
 * went, and how much fuel can leave a parked vehicle without being reported.
 */
module FuelLedger {
  import opened Common
  import opened Medians
  import opened FuelModel
  import opened FuelRuns

  predicate IsLoss(kind: EventType) {
    kind in {SiphonConfirmed, DrainTheftSuspected, AbnormalDrain}
  }

  function RefillLitres(events: seq<Event>): real {
    if events == [] then 0.0 else
      RefillLitres(events[..|events| - 1]) +
      if events[|events| - 1].kind == RefillDetected then events[|events| - 1].estimated else 0.0
  }

  function LossLitres(events: seq<Event>): real {
    if events == [] then 0.0 else
      LossLitres(events[..|events| - 1]) +
      if IsLoss(events[|events| - 1].kind) then events[|events| - 1].estimated else 0.0
  }

  lemma {:induction false} LitresAdd(a: seq<Event>, b: seq<Event>)
    ensures RefillLitres(a + b) == RefillLitres(a) + RefillLitres(b)
    ensures LossLitres(a + b) == LossLitres(a) + LossLitres(b)
  {
    if b == [] {
      assert a + b == a;
    } else {
      LitresAdd(a, b[..|b| - 1]);
      assert (a + b)[..|a + b| - 1] == a + b[..|b| - 1];
    }
  }

  function Difference(to: Option<real>, from: Option<real>): real {
    if to.Some? && from.Some? then to.value - from.value else 0.0
  }

  /** Baseline moved without an event when a trip ends and when a gap is crossed. */
  function ResetAdjustment(cfg: Config, st: State, i: Input): real {
    (if TripEnds(st, i.s) then Difference(st.lastLevel, st.baseline) else 0.0)
    + (if Gap(cfg, st, i) then Difference(st.lastLevel, EnterTrip(st, i.s).baseline) else 0.0)
  }

  /** Baseline following an evaluated level without an event. */
  function LevelDrift(v: Vehicle, cfg: Config, at: State, s: Snapshot, odoBefore: real): real
    requires cfg.Valid()
  {
    match Smooth(cfg, at, Litres(v, s))
    case Evaluated(w) => EvaluateDrift(v, cfg, at, s, w, odoBefore)
    case _ => 0.0
  }

  function EvaluateDrift(v: Vehicle, cfg: Config, at: State, s: Snapshot, w: seq<real>, odoBefore: real): real
    requires w != [] && at.lastLevel.Some?
  {
    var level := Median(w);
    if Classify(cfg, at, s, level, odoBefore).None? && BaselineFollows(v, cfg, s, level - at.lastLevel.value)
    then level - at.baseline.value
    else 0.0
  }

  function Drift(v: Vehicle, cfg: Config, st: State, i: Input): real
    requires cfg.Valid()
  {
    if !Reaches(v, cfg, st, i) then 0.0
    else LevelDrift(v, cfg, AtLevel(cfg, st, i), i.s, Enter(cfg, st, i.s, i.warmup).lastOdometer)
  }

  /** The first reading of the level stage. */
  function Opening(v: Vehicle, cfg: Config, run: seq<Input>): real
    requires cfg.Valid()
  {
    if run == [] then 0.0 else
      var st := Run(v, cfg, run[..|run| - 1]);
      Opening(v, cfg, run[..|run| - 1]) +
      if st.lastLevel.None? && Reaches(v, cfg, st, run[|run| - 1]) then Litres(v, run[|run| - 1].s) else 0.0
  }

  /** All silent baseline movement of a run. */
  function Silent(v: Vehicle, cfg: Config, run: seq<Input>): real
    requires cfg.Valid()
  {
    if run == [] then 0.0 else
      var st := Run(v, cfg, run[..|run| - 1]);
      var i := run[|run| - 1];
      Silent(v, cfg, run[..|run| - 1]) + ResetAdjustment(cfg, st, i) + Drift(v, cfg, st, i)
  }

  /** Refill litres reported since the last trip end. */
  function RefillsThisTrip(v: Vehicle, cfg: Config, run: seq<Input>): real
    requires cfg.Valid()
  {
    if run == [] then 0.0 else
      var st := Run(v, cfg, run[..|run| - 1]);
      (if TripEnds(st, run[|run| - 1].s) then 0.0 else RefillsThisTrip(v, cfg, run[..|run| - 1]))
      + RefillLitres(Latest(v, cfg, run).raised)
  }

  /** One evaluation moves the baseline by refill less loss plus drift. */
  lemma EvaluateBalances(v: Vehicle, cfg: Config, st: State, s: Snapshot, w: seq<real>, odoBefore: real)
    requires w != [] && st.lastLevel.Some?
    ensures var (next, events) := Evaluate(v, cfg, st, s, w, odoBefore);
      && next.baseline == Some(st.baseline.value + RefillLitres(events) - LossLitres(events)
                               + EvaluateDrift(v, cfg, st, s, w, odoBefore))
      && next.refillPending == st.refillPending + RefillLitres(events)
  {
    hide Median, BaselineFollows, ExpectedBurn, Stationary;
    var (next, events) := Evaluate(v, cfg, st, s, w, odoBefore);
    if events != [] {
      assert events == [events[0]] && events[..0] == [];
      OneEventLitres(events[0]);
    }
  }

  lemma OneEventLitres(e: Event)
    ensures RefillLitres([e]) == (if e.kind == RefillDetected then e.estimated else 0.0)
    ensures LossLitres([e]) == (if IsLoss(e.kind) then e.estimated else 0.0)
  {
    assert [e][..0] == [];
  }

  /** Entering a snapshot moves the baseline by the reset adjustments and flushes the
      accumulator at a trip end; the levels stay. */
  lemma EnterBalances(cfg: Config, st: State, i: Input)
    ensures var here := Enter(cfg, st, i.s, i.warmup);
      && here.lastLevel == st.lastLevel
      && here.refillPending == (if TripEnds(st, i.s) then 0.0 else st.refillPending)
      && here.baseline == (if st.baseline.None? then None else Some(st.baseline.value + ResetAdjustment(cfg, st, i)))
      && (st.baseline.None? ==> ResetAdjustment(cfg, st, i) == 0.0)
  {
  }

  lemma NoEventsNoFuel()
    ensures RefillLitres([]) == LossLitres([]) == 0.0
  {
  }

  lemma RollbackIsNoFuel(cfg: Config, st: State, s: Snapshot)
    ensures RefillLitres(RollbackEvents(cfg, st, s)) == 0.0 && LossLitres(RollbackEvents(cfg, st, s)) == 0.0
  {
    var events := RollbackEvents(cfg, st, s);
    assert events == [] || (events == [events[0]] && events[..0] == []);
  }

  /** What the level stage adds to the ledger. */
  lemma LevelStageBalances(v: Vehicle, cfg: Config, at: State, s: Snapshot, odoBefore: real)
    requires cfg.Valid()
    ensures var (next, events) := LevelStage(v, cfg, at, s, odoBefore);
      && next.refillPending == at.refillPending + RefillLitres(events)
      && if at.baseline.Some? then
           next.baseline == Some(at.baseline.value + RefillLitres(events) - LossLitres(events) + LevelDrift(v, cfg, at, s, odoBefore))
         else
           events == [] && LevelDrift(v, cfg, at, s, odoBefore) == 0.0 && next.baseline == Some(Litres(v, s))
  {
    hide Evaluate, EvaluateDrift, Litres, Smooth, RefillLitres, LossLitres;
    NoEventsNoFuel();
    FirstIffNoLevel(cfg, at, Litres(v, s));
    var smoothing := Smooth(cfg, at, Litres(v, s));
    if smoothing.Evaluated? {
      EvaluateBalances(v, cfg, at, s, smoothing.window, odoBefore);
    }
  }

  /** One call's entry in the ledger: the baseline moves by refills less losses plus silent adjustments. */
  ghost predicate Balances(v: Vehicle, cfg: Config, st: State, i: Input, o: Outcome)
    requires cfg.Valid()
  {
    var refills, losses, silent := RefillLitres(o.raised), LossLitres(o.raised), Adjustment(v, cfg, st, i);
    && o.st.refillPending == (if TripEnds(st, i.s) then 0.0 else st.refillPending) + refills
    && if st.baseline.Some? then o.st.baseline == Some(st.baseline.value + refills - losses + silent)
       else refills == losses == silent == 0.0 && o.st.baseline == if Reaches(v, cfg, st, i) then Some(Litres(v, i.s)) else None
  }

  lemma StepBalances(v: Vehicle, cfg: Config, st: State, i: Input)
    requires cfg.Valid()
    ensures Balances(v, cfg, st, i, StepOn(v, cfg, st, i))
  {
    hide StepOn, Enter, LevelStage, RollbackEvents, OdoFails, LevelDrift, ResetAdjustment, Litres, RefillLitres, LossLitres,
         TripEnds, Gap;
    StepShape(v, cfg, st, i);
    EnterBalances(cfg, st, i);
    NoEventsNoFuel();
    var here := Enter(cfg, st, i.s, i.warmup);
    RollbackIsNoFuel(cfg, here, i.s);
    if Reaches(v, cfg, st, i) {
      LevelStageBalances(v, cfg, AtLevel(cfg, st, i), i.s, here.lastOdometer);
      LitresAdd(RollbackEvents(cfg, here, i.s), LevelStage(v, cfg, AtLevel(cfg, st, i), i.s, here.lastOdometer).1);
    }
  }

  /** The litre ledger. At every point of every run the baseline is the first level plus what
      was reported as refilled, less what was reported as lost, plus the silent adjustments;
      and the refill accumulator holds the refills reported since the last trip end. */
  lemma {:induction false} LedgerBalances(v: Vehicle, cfg: Config, run: seq<Input>)
    requires cfg.Valid()
    ensures var st := Run(v, cfg, run); var events := Raised(v, cfg, run);
      && st.refillPending == RefillsThisTrip(v, cfg, run)
      && if st.baseline.Some? then
           st.baseline.value == Opening(v, cfg, run) + RefillLitres(events) - LossLitres(events) + Silent(v, cfg, run)
         else
           Opening(v, cfg, run) == RefillLitres(events) == LossLitres(events) == Silent(v, cfg, run) == 0.0
  {
    if run != [] {
      var before := run[..|run| - 1];
      LedgerBalances(v, cfg, before);
      StepBalances(v, cfg, Run(v, cfg, before), run[|run| - 1]);
      LitresAdd(Raised(v, cfg, before), Latest(v, cfg, run).raised);
    }
  }

  /** The call acted on its reading: it neither stopped early, nor opened the history, nor held a spike. */
  predicate Acts(v: Vehicle, cfg: Config, st: State, i: Input)
    requires cfg.Valid()
  {
    Reaches(v, cfg, st, i) && Smooth(cfg, AtLevel(cfg, st, i), Litres(v, i.s)).Evaluated?
  }

  /** All silent movement of the baseline in one call: what a trip end or a gap resets, and the drift. */
  function Adjustment(v: Vehicle, cfg: Config, st: State, i: Input): real
    requires cfg.Valid()
  {
    ResetAdjustment(cfg, st, i) + Drift(v, cfg, st, i)
  }

  /** What stands between the baseline and the last level, not reported as lost so far. */
  function Outstanding(st: State): real {
    Difference(st.baseline, st.lastLevel)
  }

  /** On a stationary reading of an active trip the drift stays short of the theft threshold
      downwards and of the refill threshold upwards, and there is none at all unless the
      smoothed change is below the noise floor. Afterwards less than the theft threshold is
      outstanding against the baseline. */
  lemma StationaryActiveStep(v: Vehicle, cfg: Config, st: State, i: Input)
    requires cfg.Valid() && Acts(v, cfg, st, i)
    requires Stationary(cfg, i.s) && i.s.Active()
    ensures var next := StepOn(v, cfg, st, i).st;
      && -cfg.theftThresholdL < Drift(v, cfg, st, i) < cfg.refillThresholdL
      && (Abs(Difference(next.lastLevel, st.lastLevel)) >= v.tankCapacity * cfg.noiseFloorPct / 100.0 ==> Drift(v, cfg, st, i) == 0.0)
      && next.lastLevel.Some? && next.baseline.value - next.lastLevel.value < cfg.theftThresholdL
  {
    StepShape(v, cfg, st, i);
    EnterBalances(cfg, st, i);
    var here := Enter(cfg, st, i.s, i.warmup);
    var at := AtLevel(cfg, st, i);
    assert at.tripActive && at.lastLevel == st.lastLevel;
    hide StepOn, Enter, RollbackEvents, OdoFails, ResetAdjustment, Litres, TripEnds, ExpectedBurn, Deviates;
    StationaryActiveEvaluation(v, cfg, at, i.s, Smooth(cfg, at, Litres(v, i.s)).window, here.lastOdometer);
    hide Evaluate, EvaluateDrift, Smooth, AtLevel;
  }

  lemma ActiveReset(cfg: Config, st: State, i: Input)
    requires i.s.Active()
    ensures ResetAdjustment(cfg, st, i) == if Gap(cfg, st, i) then -Outstanding(st) else 0.0
  {
  }

  /** How far the smoothed level the call acts on lies from the last one. */
  function Change(v: Vehicle, cfg: Config, st: State, i: Input): real
    requires cfg.Valid() && Acts(v, cfg, st, i)
  {
    Median(Smooth(cfg, AtLevel(cfg, st, i), Litres(v, i.s)).window) - st.lastLevel.value
  }

  /** What a gap loses sight of: the outstanding loss, and the new reading's own change when that is noise. */
  function LostInGap(v: Vehicle, cfg: Config, st: State, i: Input): real
    requires cfg.Valid() && Acts(v, cfg, st, i)
  {
    var change := Change(v, cfg, st, i);
    var noise := Abs(change) < v.tankCapacity * cfg.noiseFloorPct / 100.0 && -cfg.theftThresholdL < change < cfg.refillThresholdL;
    Outstanding(st) - if noise then change else 0.0
  }

  lemma DriftAfterGap(v: Vehicle, cfg: Config, st: State, i: Input)
    requires cfg.Valid() && Acts(v, cfg, st, i)
    requires Stationary(cfg, i.s) && i.s.Active() && Gap(cfg, st, i)
    ensures Drift(v, cfg, st, i) == Outstanding(st) - LostInGap(v, cfg, st, i)
  {
    hide Enter, AtLevel, Litres, Smooth, Gap, Median, Difference, OdoFails, EvaluateDrift;
    ActiveReset(cfg, st, i);
    GapState(cfg, st, i);
    var at := AtLevel(cfg, st, i);
    FirstIffNoLevel(cfg, at, Litres(v, i.s));
    var odoBefore := Enter(cfg, st, i.s, i.warmup).lastOdometer;
    DriftFromLevel(v, cfg, at, i.s, Smooth(cfg, at, Litres(v, i.s)).window, odoBefore);
  }

  lemma GapState(cfg: Config, st: State, i: Input)
    requires i.s.Active() && Gap(cfg, st, i)
    ensures var at := AtLevel(cfg, st, i); at.tripActive && at.lastLevel == at.baseline == st.lastLevel && at.stopStart == 0
  {
  }

  /** Judged against its own last level and a fresh timer, a parked level drifts by its change when that is noise. */
  lemma DriftFromLevel(v: Vehicle, cfg: Config, at: State, s: Snapshot, w: seq<real>, odoBefore: real)
    requires cfg.Valid() && w != [] && at.lastLevel.Some? && at.baseline == at.lastLevel && at.stopStart == 0 && at.tripActive
    requires Stationary(cfg, s)
    ensures var change := Median(w) - at.lastLevel.value;
      EvaluateDrift(v, cfg, at, s, w, odoBefore) ==
        if Abs(change) < v.tankCapacity * cfg.noiseFloorPct / 100.0 && -cfg.theftThresholdL < change < cfg.refillThresholdL
        then change else 0.0
  {
    hide Median, ExpectedBurn;
  }

  /** On a stationary reading of an active trip all silent movement of the baseline stays short of
      the theft threshold downwards and of the refill threshold upwards exactly when no gap comes
      before it or what the gap loses sight of is short of them. */
  lemma SilentMovementIsBounded(v: Vehicle, cfg: Config, st: State, i: Input)
    requires cfg.Valid() && Acts(v, cfg, st, i)
    requires Stationary(cfg, i.s) && i.s.Active()
    ensures -cfg.theftThresholdL < Adjustment(v, cfg, st, i) < cfg.refillThresholdL <==>
      !Gap(cfg, st, i) || -cfg.refillThresholdL < LostInGap(v, cfg, st, i) < cfg.theftThresholdL
  {
    StationaryActiveStep(v, cfg, st, i);
    ActiveReset(cfg, st, i);
    if Gap(cfg, st, i) { DriftAfterGap(v, cfg, st, i); }
    hide StepOn, Acts, Drift, Outstanding, ResetAdjustment, Gap, LostInGap;
  }

  /** Over every run the level never stands the refill threshold or more above the baseline. */
  lemma {:induction false} RefillNeverOutstanding(v: Vehicle, cfg: Config, run: seq<Input>)
    requires cfg.Valid()
    ensures -cfg.refillThresholdL < Outstanding(Run(v, cfg, run))
  {
    hide StepOn, Outstanding;
    if run == [] {
      NothingOutstanding();
    } else {
      var before := run[..|run| - 1];
      RefillNeverOutstanding(v, cfg, before);
      RefillStep(v, cfg, Run(v, cfg, before), run[|run| - 1]);
    }
  }

  lemma NothingOutstanding()
    ensures Outstanding(INITIAL) == 0.0
  {
  }

  lemma RefillStep(v: Vehicle, cfg: Config, st: State, i: Input)
    requires cfg.Valid() && -cfg.refillThresholdL < Outstanding(st)
    ensures -cfg.refillThresholdL < Outstanding(StepOn(v, cfg, st, i).st)
  {
    StepShape(v, cfg, st, i);
    RefillEnter(cfg, st, i);
    var at := AtLevel(cfg, st, i);
    FirstIffNoLevel(cfg, at, Litres(v, i.s));
    var smoothing := Smooth(cfg, at, Litres(v, i.s));
    hide StepOn, Enter, AtLevel, Evaluate, Litres, Smooth, RollbackEvents, OdoFails;
    if smoothing.Evaluated? {
      RefillEvaluation(v, cfg, at, i.s, smoothing.window, Enter(cfg, st, i.s, i.warmup).lastOdometer);
    }
  }

  lemma RefillEnter(cfg: Config, st: State, i: Input)
    requires cfg.Valid() && -cfg.refillThresholdL < Outstanding(st)
    ensures var here := Enter(cfg, st, i.s, i.warmup);
      -cfg.refillThresholdL < Outstanding(here) == Outstanding(AtLevel(cfg, st, i)) == Outstanding(MoveOdometer(here, i.s))
  {
  }

  lemma RefillEvaluation(v: Vehicle, cfg: Config, at: State, s: Snapshot, w: seq<real>, odoBefore: real)
    requires cfg.Valid() && w != [] && at.lastLevel.Some?
    ensures -cfg.refillThresholdL < Outstanding(Evaluate(v, cfg, at, s, w, odoBefore).0)
  {
    hide Median, ExpectedBurn, Stationary;
  }

  lemma StationaryActiveEvaluation(v: Vehicle, cfg: Config, at: State, s: Snapshot, w: seq<real>, odoBefore: real)
    requires cfg.Valid() && w != [] && at.lastLevel.Some?
    requires Stationary(cfg, s) && at.tripActive
    ensures var next := Evaluate(v, cfg, at, s, w, odoBefore).0; var drift := EvaluateDrift(v, cfg, at, s, w, odoBefore);
      && -cfg.theftThresholdL < drift < cfg.refillThresholdL
      && (Abs(Median(w) - at.lastLevel.value) >= v.tankCapacity * cfg.noiseFloorPct / 100.0 ==> drift == 0.0)
      && next.baseline.value - next.lastLevel.value < cfg.theftThresholdL
  {
  }

  // ------------------------------------------------------------- unreported loss

  /** A stretch of stationary calls on an active trip with no gap, following `base`. */
  ghost predicate ParkedStretch(v: Vehicle, cfg: Config, base: seq<Input>, stretch: seq<Input>)
    requires cfg.Valid()
  {
    stretch == [] ||
    var shorter := stretch[..|stretch| - 1];
    ParkedStretch(v, cfg, base, shorter) && ParkedCall(cfg, Run(v, cfg, base + shorter), stretch[|stretch| - 1])
  }

  predicate ParkedCall(cfg: Config, st: State, i: Input) {
    Stationary(cfg, i.s) && i.s.Active() && !Gap(cfg, st, i)
  }

  /** Each level change of the stretch is at least the noise floor. */
  ghost predicate AboveNoise(v: Vehicle, cfg: Config, base: seq<Input>, stretch: seq<Input>)
    requires cfg.Valid()
  {
    stretch == [] ||
    var shorter := stretch[..|stretch| - 1];
    AboveNoise(v, cfg, base, shorter) && MovesAboveNoise(v, cfg, Run(v, cfg, base + shorter), stretch[|stretch| - 1])
  }

  predicate MovesAboveNoise(v: Vehicle, cfg: Config, st: State, i: Input)
    requires cfg.Valid()
  {
    Acts(v, cfg, st, i) ==>
      Abs(Difference(StepOn(v, cfg, st, i).st.lastLevel, st.lastLevel)) >= v.tankCapacity * cfg.noiseFloorPct / 100.0
  }

  /** What a stretch lost without reporting it: the level it should have, given its starting
      baseline and its reports, less the level it has. */
  function Unreported(v: Vehicle, cfg: Config, base: seq<Input>, stretch: seq<Input>): real
    requires cfg.Valid()
    requires Run(v, cfg, base).baseline.Some? && Run(v, cfg, base + stretch).lastLevel.Some?
  {
    var before, after := Raised(v, cfg, base), Raised(v, cfg, base + stretch);
    Run(v, cfg, base).baseline.value
    + (RefillLitres(after) - RefillLitres(before)) - (LossLitres(after) - LossLitres(before))
    - Run(v, cfg, base + stretch).lastLevel.value
  }

  /** How opening level, event log and silent adjustments grow by one call. */
  lemma OneMoreCall(v: Vehicle, cfg: Config, run: seq<Input>, i: Input)
    requires cfg.Valid()
    ensures var st := Run(v, cfg, run);
      && Run(v, cfg, run + [i]) == StepOn(v, cfg, st, i).st
      && Raised(v, cfg, run + [i]) == Raised(v, cfg, run) + StepOn(v, cfg, st, i).raised
      && Opening(v, cfg, run + [i]) == Opening(v, cfg, run) + (if st.lastLevel.None? && Reaches(v, cfg, st, i) then Litres(v, i.s) else 0.0)
      && Silent(v, cfg, run + [i]) == Silent(v, cfg, run) + ResetAdjustment(cfg, st, i) + Drift(v, cfg, st, i)
  {
    hide StepOn, Reaches, Litres, ResetAdjustment, Drift;
    assert (run + [i])[..|run + [i]| - 1] == run;
  }

  lemma {:induction false} OpeningHappensOnce(v: Vehicle, cfg: Config, base: seq<Input>, stretch: seq<Input>)
    requires cfg.Valid() && Run(v, cfg, base).lastLevel.Some?
    ensures Run(v, cfg, base + stretch).lastLevel.Some?
    ensures Opening(v, cfg, base + stretch) == Opening(v, cfg, base)
  {
    hide StepOn, Run, Opening, Reaches, Litres, ResetAdjustment, Drift;
    if stretch == [] {
      assert base + stretch == base;
    } else {
      var shorter, i := stretch[..|stretch| - 1], stretch[|stretch| - 1];
      OpeningHappensOnce(v, cfg, base, shorter);
      StepBalances(v, cfg, Run(v, cfg, base + shorter), i);
      OneMoreCall(v, cfg, base + shorter, i);
      assert base + stretch == base + shorter + [i];
    }
  }

  /** Exact accounting of a parked stretch: after every reading acted on, what went unreported
      is less than the theft threshold beyond the silent adjustments, however slowly it left. */
  lemma UnreportedLossIsBounded(v: Vehicle, cfg: Config, base: seq<Input>, stretch: seq<Input>)
    requires cfg.Valid() && Run(v, cfg, base).lastLevel.Some? && stretch != []
    requires ParkedStretch(v, cfg, base, stretch)
    requires Acts(v, cfg, Run(v, cfg, base + stretch[..|stretch| - 1]), stretch[|stretch| - 1])
    ensures Run(v, cfg, base + stretch).lastLevel.Some?
    ensures Unreported(v, cfg, base, stretch) < cfg.theftThresholdL - (Silent(v, cfg, base + stretch) - Silent(v, cfg, base))
  {
    hide StepOn, Run, Raised, Opening, Silent, RefillLitres, LossLitres, Acts, Gap;
    var shorter, i := stretch[..|stretch| - 1], stretch[|stretch| - 1];
    LedgerBalances(v, cfg, base);
    LedgerBalances(v, cfg, base + stretch);
    OpeningHappensOnce(v, cfg, base, stretch);
    OneMoreCall(v, cfg, base + shorter, i);
    assert base + stretch == base + shorter + [i];
    StationaryActiveStep(v, cfg, Run(v, cfg, base + shorter), i);
  }

  lemma {:induction false} NoSilenceAboveNoise(v: Vehicle, cfg: Config, base: seq<Input>, stretch: seq<Input>)
    requires cfg.Valid()
    requires ParkedStretch(v, cfg, base, stretch) && AboveNoise(v, cfg, base, stretch)
    ensures Silent(v, cfg, base + stretch) == Silent(v, cfg, base)
  {
    hide StepOn, Run, Silent, ParkedCall, MovesAboveNoise;
    if stretch == [] {
      assert base + stretch == base;
    } else {
      var shorter, i := stretch[..|stretch| - 1], stretch[|stretch| - 1];
      NoSilenceAboveNoise(v, cfg, base, shorter);
      ParkedCallDrifts(v, cfg, Run(v, cfg, base + shorter), i);
      OneMoreCall(v, cfg, base + shorter, i);
      assert base + stretch == base + shorter + [i];
    }
  }

  /** On a parked call only a change below the noise floor can move the baseline silently. */
  lemma ParkedCallDrifts(v: Vehicle, cfg: Config, st: State, i: Input)
    requires cfg.Valid() && ParkedCall(cfg, st, i) && MovesAboveNoise(v, cfg, st, i)
    ensures ResetAdjustment(cfg, st, i) == 0.0 && Drift(v, cfg, st, i) == 0.0
  {
    hide StepOn, EvaluateDrift, Litres, Deviates;
    if Acts(v, cfg, st, i) {
      StationaryActiveStep(v, cfg, st, i);
    }
  }

  /** A parked vehicle on an active trip cannot lose the theft threshold unreported, over any
      number of readings, as long as each change the engine sees is at least the noise floor. */
  lemma LossAboveNoiseIsReported(v: Vehicle, cfg: Config, base: seq<Input>, stretch: seq<Input>)
    requires cfg.Valid() && Run(v, cfg, base).lastLevel.Some? && stretch != []
    requires ParkedStretch(v, cfg, base, stretch) && AboveNoise(v, cfg, base, stretch)
    requires Acts(v, cfg, Run(v, cfg, base + stretch[..|stretch| - 1]), stretch[|stretch| - 1])
    ensures Run(v, cfg, base + stretch).lastLevel.Some?
    ensures Unreported(v, cfg, base, stretch) < cfg.theftThresholdL
  {
    UnreportedLossIsBounded(v, cfg, base, stretch);
    NoSilenceAboveNoise(v, cfg, base, stretch);
  }
}
