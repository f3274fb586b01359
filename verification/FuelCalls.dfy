/**
 * What one call of the pipeline does, read off its inputs: which trip and gap effects it has, when
 * the guard moves, when a reading is held, what is reported and what each report holds.
 */
module FuelCalls {
  import opened Common
  import opened Medians
  import opened FuelModel
  import opened FuelRuns
  import opened FuelLedger
  import opened FuelDiagnosis

  // ------------------------------------------------------------- entering

  /** The trip of the previous call is over. */
  predicate TripOver(st: State, s: Snapshot) {
    st.tripActive && s.tripID == st.tripID && s.tripID != "" && s.lookedUpStatus.Unlisted?
  }

  predicate LongSilence(cfg: Config, st: State, i: Input) {
    !i.warmup && st.lastTs > 0 && i.s.ts > st.lastTs + cfg.gapTolerance
  }

  /** A trip that is over flushes the refills and brings the baseline to the level; so does a long
      silence, which also forgets window and timer. The held spike, level and guard stay. */
  lemma EnteringACall(cfg: Config, st: State, i: Input)
    ensures var here := Enter(cfg, st, i.s, i.warmup); var over := TripOver(st, i.s); var silent := LongSilence(cfg, st, i);
      && here.baseline == (if over || silent then st.lastLevel else st.baseline)
      && here.refillPending == (if over then 0.0 else st.refillPending)
      && here.window == (if silent then [] else st.window) && here.stopStart == (if silent then 0 else st.stopStart)
      && here.pendingSpike == st.pendingSpike && here.lastLevel == st.lastLevel && here.lastOdometer == st.lastOdometer
      && here.lastTs == Max(st.lastTs, i.s.ts) && here.tripID == i.s.tripID
      && here.driverID == (if i.s.driverID != "" then i.s.driverID
                           else if i.s.tripID != "" && i.s.lookedUpDriver != "" then i.s.lookedUpDriver else st.driverID)
      && here.tripActive == (i.s.tripID == "" || !i.s.lookedUpStatus.Unlisted?)
  {
  }

  // ------------------------------------------------------------- the odometer guard

  predicate OdometerBack(cfg: Config, st: State, s: Snapshot) {
    st.lastOdometer > 0.0 && s.odometer > 0.0 && st.lastOdometer - s.odometer > cfg.odoToleranceKm
  }

  /** The guard follows every odometer reading, forwards and back, except one whose rollback does not commit. */
  lemma GuardFollowsOdometer(v: Vehicle, cfg: Config, st: State, i: Input)
    requires cfg.Valid()
    ensures StepOn(v, cfg, st, i).st.lastOdometer ==
      if i.s.odometer > 0.0 && !(OdometerBack(cfg, st, i.s) && !i.ok.odo) then i.s.odometer else st.lastOdometer
  {
    StepShape(v, cfg, st, i);
    EnteringACall(cfg, st, i);
    LevelStageOdometer(v, cfg, AtLevel(cfg, st, i), i.s, Enter(cfg, st, i.s, i.warmup).lastOdometer);
    hide StepOn, LevelStage, Enter, RollbackEvents;
  }

  lemma LevelStageOdometer(v: Vehicle, cfg: Config, at: State, s: Snapshot, odoBefore: real)
    requires cfg.Valid()
    ensures LevelStage(v, cfg, at, s, odoBefore).0.lastOdometer == at.lastOdometer
  {
    hide Litres, Classify, BaselineFollows, Smooth, Median;
  }

  // ------------------------------------------------------------- readings

  /** A raw level is clamped between zero and the capacity and then taken as litres, or as percent of the capacity. */
  lemma ReadingIsConverted(v: Vehicle, s: Snapshot)
    requires v.tankCapacity > 0.0
    ensures var kept := if s.fuelLevel <= 0.0 then 0.0 else if s.fuelLevel >= v.tankCapacity then v.tankCapacity else s.fuelLevel;
      100.0 * Litres(v, s) == if v.litresUnit then 100.0 * kept else kept * v.tankCapacity
  {
  }

  /** The level stage is reached unless the vehicle has no sensor or capacity, or a rollback does not commit. */
  lemma ReachesIff(v: Vehicle, cfg: Config, st: State, i: Input)
    ensures Reaches(v, cfg, st, i) <==> v.sensorFitted && v.tankCapacity > 0.0 && (OdometerBack(cfg, st, i.s) ==> i.ok.odo)
  {
    EnteringACall(cfg, st, i);
    hide Enter;
  }

  /** The reading is further from the median of the window than the configured percentage of it; next
      to an empty tank, it is not next to empty. */
  predicate FarFrom(cfg: Config, litres: real, m: real) {
    if m >= 0.000000001 then 100.0 * (litres - m) > cfg.spikeDeviationPct * m || 100.0 * (m - litres) > cfg.spikeDeviationPct * m
    else litres > 0.000000001
  }

  lemma DeviationInPercent(cfg: Config, litres: real, m: real)
    ensures Deviates(litres, m, cfg.spikeDeviationPct) <==> FarFrom(cfg, litres, m)
  {
    if m >= 0.000000001 {
      var d, p := Abs(litres - m), cfg.spikeDeviationPct;
      var q, r := d / m, p / 100.0;
      assert q * m == d && r * 100.0 == p;
      MulOrder(q, r, m);
      assert 100.0 * d > p * m <==> q * m > r * m by { assert p * m == 100.0 * (r * m); }
    }
  }

  lemma MulOrder(q: real, r: real, m: real)
    requires m > 0.0
    ensures q * m > r * m <==> q > r
  {
    if q > r { assert (q - r) * m > 0.0; } else { assert (r - q) * m >= 0.0; }
  }

  lemma HeldIff(cfg: Config, at: State, litres: real)
    requires cfg.Valid()
    ensures Smooth(cfg, at, litres).Held? <==>
      at.lastLevel.Some? && at.pendingSpike.None? && at.window != [] && FarFrom(cfg, litres, Median(at.window))
    ensures Smooth(cfg, at, litres).First? <==> at.lastLevel.None?
  {
    if at.window != [] { DeviationInPercent(cfg, litres, Median(at.window)); }
    hide Deviates, FarFrom, Median;
  }

  /** A call acts exactly when it reaches the level stage with a level, and a spike is held or its
      reading is not far from the median of a window there is. */
  lemma ActsIff(v: Vehicle, cfg: Config, st: State, i: Input)
    requires cfg.Valid()
    ensures var w := if LongSilence(cfg, st, i) then [] else st.window;
      Acts(v, cfg, st, i) <==>
        && v.sensorFitted && v.tankCapacity > 0.0 && (OdometerBack(cfg, st, i.s) ==> i.ok.odo) && st.lastLevel.Some?
        && (st.pendingSpike.Some? || w == [] || !FarFrom(cfg, Litres(v, i.s), Median(w)))
  {
    ReachesIff(v, cfg, st, i);
    EnteringACall(cfg, st, i);
    HeldIff(cfg, AtLevel(cfg, st, i), Litres(v, i.s));
    hide Enter, Reaches, Litres, Smooth, FarFrom, Median, OdometerBack, LongSilence;
  }

  /** With a level and nothing held, a reading that reaches the level stage is held, and then
      changes nothing else, exactly when there is a window and it is far from its median. With a spike held
      the next such call acts, and nothing is held after it. */
  lemma SpikeHeldIff(v: Vehicle, cfg: Config, st: State, i: Input)
    requires cfg.Valid() && Reaches(v, cfg, st, i) && st.lastLevel.Some?
    ensures var o, here := StepOn(v, cfg, st, i), Enter(cfg, st, i.s, i.warmup);
      var w, litres := if LongSilence(cfg, st, i) then [] else st.window, Litres(v, i.s);
      && (st.pendingSpike.None? && w != [] && FarFrom(cfg, litres, Median(w)) <==> o.st.pendingSpike.Some?)
      && (o.st.pendingSpike.Some? ==>
            && o.st.pendingSpike == Some(litres) && o.st.window == w && o.st.lastLevel == st.lastLevel
            && o.st.baseline == here.baseline && o.st.stopStart == here.stopStart && o.st.refillPending == here.refillPending
            && forall kind :: kind != OdometerRollback ==> !Raises(o.raised, kind))
      && (st.pendingSpike.Some? ==> Acts(v, cfg, st, i))
  {
    EnteringACall(cfg, st, i);
    ActsIff(v, cfg, st, i);
    HeldIff(cfg, AtLevel(cfg, st, i), Litres(v, i.s));
    LevelStageHolds(v, cfg, AtLevel(cfg, st, i), i.s, Enter(cfg, st, i.s, i.warmup).lastOdometer);
    StepShape(v, cfg, st, i);
    forall kind | kind != OdometerRollback && !Acts(v, cfg, st, i) ensures !Raises(StepOn(v, cfg, st, i).raised, kind) {
      ReportsItsVerdict(v, cfg, st, i, kind);
    }
    hide StepOn, Enter, LevelStage, Litres, Smooth, FarFrom, Median, OdometerBack, LongSilence, Raises, RollbackEvents, OdoFails;
  }

  lemma LevelStageHolds(v: Vehicle, cfg: Config, at: State, s: Snapshot, odoBefore: real)
    requires cfg.Valid()
    ensures var next := LevelStage(v, cfg, at, s, odoBefore).0;
      if Smooth(cfg, at, Litres(v, s)).Held? then next == at.(pendingSpike := Some(Litres(v, s))) else next.pendingSpike.None?
  {
    HeldIff(cfg, at, Litres(v, s));
    hide Litres, Smooth, Detect, Median;
  }

  /** The very first reading sets window, level and baseline to itself, and the timer when stationary. */
  lemma FirstReadingSetsLevels(v: Vehicle, cfg: Config, st: State, i: Input)
    requires cfg.Valid() && Reaches(v, cfg, st, i) && st.lastLevel.None? && st.stopStart == 0
    ensures var next, litres := StepOn(v, cfg, st, i).st, Litres(v, i.s);
      && next.window == [litres] && next.lastLevel == next.baseline == Some(litres) && next.pendingSpike.None?
      && next.stopStart == if -cfg.stopSpeedKmh < i.s.speed < cfg.stopSpeedKmh then i.s.ts else 0
  {
    StepShape(v, cfg, st, i);
    EnteringACall(cfg, st, i);
    hide StepOn, Enter, Litres, Evaluate, RollbackEvents, OdoFails;
  }

  // ------------------------------------------------------------- what is reported

  /** The level the call acted on lies this far below the baseline it is judged by: the level before,
      after a trip that is over or a long silence, and the old baseline otherwise. */
  function Fall(v: Vehicle, cfg: Config, st: State, i: Input): real
    requires cfg.Valid() && st.lastLevel.Some?
  {
    var judged := if TripOver(st, i.s) || LongSilence(cfg, st, i) then st.lastLevel else st.baseline;
    judged.value - Difference(StepOn(v, cfg, st, i).st.lastLevel, Some(0.0))
  }

  lemma FallIsDrop(v: Vehicle, cfg: Config, st: State, i: Input)
    requires cfg.Valid() && Acts(v, cfg, st, i)
    ensures st.lastLevel.Some? && Fall(v, cfg, st, i) == Drop(v, cfg, st, i)
    ensures StepOn(v, cfg, st, i).st.lastLevel == Some(Median(Smooth(cfg, AtLevel(cfg, st, i), Litres(v, i.s)).window))
  {
    StepShape(v, cfg, st, i);
    EnteringACall(cfg, st, i);
    HeldIff(cfg, AtLevel(cfg, st, i), Litres(v, i.s));
    LevelStageLevel(v, cfg, AtLevel(cfg, st, i), i.s, Enter(cfg, st, i.s, i.warmup).lastOdometer);
    hide StepOn, Enter, LevelStage, Litres, Smooth, Median, TripOver, LongSilence, RollbackEvents, OdoFails;
  }

  /** What the branches say, in the order of the switch and with the conditions spelled out. */
  lemma Branches(cfg: Config, at: State, s: Snapshot, m: real, odoBefore: real)
    requires cfg.Valid() && at.baseline.Some?
    ensures var fall := at.baseline.value - m; var parked := -cfg.stopSpeedKmh < s.speed < cfg.stopSpeedKmh;
      var kind := Classify(cfg, at, s, m, odoBefore);
      var drains := !parked && at.tripActive && s.Status() == InTransit && fall >= ExpectedBurn(odoBefore, s, cfg);
      && (kind == Some(DrainTheftSuspected) <==> parked && at.tripActive && fall >= cfg.theftThresholdL && kind != Some(SiphonConfirmed))
      && (kind == Some(AbnormalDrain) <==> drains)
      && (kind == Some(RefillDetected) <==> -fall >= cfg.refillThresholdL && !drains)
  {
    hide ExpectedBurn, StopStart;
  }

  lemma TransitIsActive(s: Snapshot)
    ensures s.Status() == InTransit <==> s.tripID != "" && s.lookedUpStatus.InTransit?
    ensures s.Status() == InTransit ==> s.Active()
    ensures s.Active() <==> s.tripID == "" || !s.lookedUpStatus.Unlisted?
  {
  }

  /** Driving with the trip in transit, and down by at least the consumption allowed for the distance. */
  predicate DrainsOnTheWay(v: Vehicle, cfg: Config, st: State, i: Input)
    requires cfg.Valid() && st.lastLevel.Some?
  {
    && (i.s.speed <= -cfg.stopSpeedKmh || i.s.speed >= cfg.stopSpeedKmh) && i.s.tripID != "" && i.s.lookedUpStatus.InTransit?
    && var km := if i.s.odometer > 0.0 && st.lastOdometer > 0.0 then i.s.odometer - st.lastOdometer else 0.0;
       Fall(v, cfg, st, i) >= km * cfg.abnormalLPerKm * (1.0 + cfg.abnormalMarginPct / 100.0)
  }

  /** Over every call: a theft is suspected exactly when the call acts, the vehicle is parked with an
      active trip or none, the level is down by the theft threshold and no siphon is confirmed; an
      abnormal drain is reported exactly when the call acts and drains on the way; a refill
      exactly when the call acts, the level is up by the refill threshold and there is no such drain. */
  lemma ReportedIff(v: Vehicle, cfg: Config, st: State, i: Input)
    requires cfg.Valid()
    ensures var raised := StepOn(v, cfg, st, i).raised;
      && (Raises(raised, DrainTheftSuspected) <==>
            && Acts(v, cfg, st, i) && st.lastLevel.Some?
            && -cfg.stopSpeedKmh < i.s.speed < cfg.stopSpeedKmh && (i.s.tripID == "" || !i.s.lookedUpStatus.Unlisted?)
            && Fall(v, cfg, st, i) >= cfg.theftThresholdL && !Raises(raised, SiphonConfirmed))
      && (Raises(raised, AbnormalDrain) <==> Acts(v, cfg, st, i) && st.lastLevel.Some? && DrainsOnTheWay(v, cfg, st, i))
      && (Raises(raised, RefillDetected) <==>
            && Acts(v, cfg, st, i) && st.lastLevel.Some?
            && -Fall(v, cfg, st, i) >= cfg.refillThresholdL && !DrainsOnTheWay(v, cfg, st, i))
  {
    ReportsItsVerdict(v, cfg, st, i, DrainTheftSuspected);
    ReportsItsVerdict(v, cfg, st, i, SiphonConfirmed);
    ReportsItsVerdict(v, cfg, st, i, AbnormalDrain);
    ReportsItsVerdict(v, cfg, st, i, RefillDetected);
    hide StepOn, Enter, Raises, Litres, Smooth, Median, Classify, Fall, FarFrom, DrainsOnTheWay, ExpectedBurn;
    if Acts(v, cfg, st, i) {
      FallIsDrop(v, cfg, st, i);
      EnteringACall(cfg, st, i);
      TransitIsActive(i.s);
      DrainsIff(v, cfg, st, i);
      var at, odoBefore := AtLevel(cfg, st, i), Enter(cfg, st, i.s, i.warmup).lastOdometer;
      HeldIff(cfg, at, Litres(v, i.s));
      Branches(cfg, at, i.s, Median(Smooth(cfg, at, Litres(v, i.s)).window), odoBefore);
    }
  }

  lemma DrainsIff(v: Vehicle, cfg: Config, st: State, i: Input)
    requires cfg.Valid() && Acts(v, cfg, st, i) && st.lastLevel.Some?
    ensures DrainsOnTheWay(v, cfg, st, i) <==>
      && !(-cfg.stopSpeedKmh < i.s.speed < cfg.stopSpeedKmh) && AtLevel(cfg, st, i).tripActive && i.s.Status() == InTransit
      && Fall(v, cfg, st, i) >= ExpectedBurn(Enter(cfg, st, i.s, i.warmup).lastOdometer, i.s, cfg)
  {
    EnteringACall(cfg, st, i);
    TransitIsActive(i.s);
    hide Enter, Fall, Acts;
  }

  /** What an event reports of a fall or a rise from the judged baseline to the level. */
  predicate Reports(e: Event, cfg: Config, before: real, after: real, guard: real) {
    && e.before == before && e.after == after && e.odoBefore == guard
    && match e.kind
       case SiphonConfirmed =>
         e.estimated == before - after && e.confidence == 1.0 && e.severity == Critical && e.behaviour == Some(FuelTheftSuspicion(cfg.weightTheft))
       case DrainTheftSuspected =>
         e.estimated == before - after && e.confidence == 1.0 && e.severity == High && e.behaviour == Some(FuelTheftSuspicion(cfg.weightTheft))
       case AbnormalDrain =>
         e.estimated == before - after && e.confidence == 0.9 && e.severity == Medium && e.behaviour == None
       case RefillDetected =>
         e.estimated == after - before && e.confidence == 1.0 && e.severity == Low && e.behaviour == None
       case OdometerRollback =>
         e.estimated == before - after && e.confidence == 1.0 && e.severity == High && e.behaviour == Some(RollbackBehaviour(cfg.weightOdoRollback))
  }

  lemma EvaluationReports(v: Vehicle, cfg: Config, at: State, s: Snapshot, w: seq<real>, odoBefore: real)
    requires w != [] && at.lastLevel.Some?
    ensures var (next, events) := Evaluate(v, cfg, at, s, w, odoBefore);
      && (forall e :: e in events ==> e.kind != OdometerRollback && Reports(e, cfg, at.baseline.value, Median(w), odoBefore))
      && next.baseline == Some(
           if events != [] || s.speed <= -cfg.stopSpeedKmh || s.speed >= cfg.stopSpeedKmh
              || Abs(Median(w) - at.lastLevel.value) < v.tankCapacity * cfg.noiseFloorPct / 100.0
           then Median(w) else at.baseline.value)
  {
    SameVerdict(cfg, at, w, s, Median(w), odoBefore);
    hide Classify, Median, StopStart;
  }

  lemma RollbackReports(cfg: Config, st: State, i: Input)
    ensures var events := RollbackEvents(cfg, Enter(cfg, st, i.s, i.warmup), i.s);
      && |events| <= 1 && (events != [] <==> OdometerBack(cfg, st, i.s))
      && forall e :: e in events ==> e.kind == OdometerRollback && Reports(e, cfg, st.lastOdometer, i.s.odometer, st.lastOdometer)
  {
    EnteringACall(cfg, st, i);
    hide Enter;
  }

  /** Every event raised reports the judged baseline and the new level, or the guard and the reading,
      with the weight, confidence and severity of its kind. */
  lemma EventsReportWhatHappened(v: Vehicle, cfg: Config, st: State, i: Input, e: Event)
    requires cfg.Valid() && e in StepOn(v, cfg, st, i).raised
    ensures var judged := if TripOver(st, i.s) || LongSilence(cfg, st, i) then st.lastLevel else st.baseline;
      if e.kind == OdometerRollback then
        OdometerBack(cfg, st, i.s) && Reports(e, cfg, st.lastOdometer, i.s.odometer, st.lastOdometer)
      else
        && Acts(v, cfg, st, i) && judged.Some? && StepOn(v, cfg, st, i).st.lastLevel.Some?
        && Reports(e, cfg, judged.value, StepOn(v, cfg, st, i).st.lastLevel.value, st.lastOdometer)
  {
    StepShape(v, cfg, st, i);
    EnteringACall(cfg, st, i);
    RollbackReports(cfg, st, i);
    var at, here := AtLevel(cfg, st, i), Enter(cfg, st, i.s, i.warmup);
    HeldIff(cfg, at, Litres(v, i.s));
    LevelStageEvents(v, cfg, at, i.s, here.lastOdometer);
    hide StepOn, Enter, LevelStage, Litres, Smooth, FarFrom, Median, Reports, TripOver, LongSilence, RollbackEvents, OdoFails, OdometerBack;
  }

  lemma LevelStageEvents(v: Vehicle, cfg: Config, at: State, s: Snapshot, odoBefore: real)
    requires cfg.Valid()
    ensures var (next, events) := LevelStage(v, cfg, at, s, odoBefore); var smooth := Smooth(cfg, at, Litres(v, s));
      && (!smooth.Evaluated? ==> events == [])
      && (smooth.Evaluated? ==>
            && at.baseline.Some? && next.lastLevel.Some?
            && forall e :: e in events ==> e.kind != OdometerRollback && Reports(e, cfg, at.baseline.value, next.lastLevel.value, odoBefore))
  {
    HeldIff(cfg, at, Litres(v, s));
    hide Litres, Smooth, Evaluate, Median, Reports;
    var smooth := Smooth(cfg, at, Litres(v, s));
    if smooth.Evaluated? { EvaluationReports(v, cfg, at, s, smooth.window, odoBefore); }
  }

  /** After a call that acted, the baseline is at the level when something was reported, the vehicle moves
      or the change is noise; a parked change above noise that crosses no threshold leaves it. */
  lemma BaselineAfterActing(v: Vehicle, cfg: Config, st: State, i: Input)
    requires cfg.Valid() && Acts(v, cfg, st, i)
    ensures var o := StepOn(v, cfg, st, i); var judged := if TripOver(st, i.s) || LongSilence(cfg, st, i) then st.lastLevel else st.baseline;
      && o.st.lastLevel.Some? && st.lastLevel.Some?
      && o.st.baseline ==
           if (exists e :: e in o.raised && e.kind != OdometerRollback) || i.s.speed <= -cfg.stopSpeedKmh || i.s.speed >= cfg.stopSpeedKmh
              || Abs(o.st.lastLevel.value - st.lastLevel.value) < v.tankCapacity * cfg.noiseFloorPct / 100.0
           then o.st.lastLevel else judged
  {
    StepShape(v, cfg, st, i);
    EnteringACall(cfg, st, i);
    RollbackReports(cfg, st, i);
    var at, here := AtLevel(cfg, st, i), Enter(cfg, st, i.s, i.warmup);
    HeldIff(cfg, at, Litres(v, i.s));
    var w := Smooth(cfg, at, Litres(v, i.s)).window;
    EvaluationReports(v, cfg, at, i.s, w, here.lastOdometer);
    var events := Evaluate(v, cfg, at, i.s, w, here.lastOdometer).1;
    hide StepOn, Enter, Evaluate, Litres, Smooth, FarFrom, Median, Reports, TripOver, LongSilence, OdoFails, OdometerBack;
    var rollback := RollbackEvents(cfg, here, i.s);
    hide RollbackEvents;
    if events != [] { assert events[0] in rollback + events; }
  }
}
