/**
 * Per-vehicle state of the fuel anomaly engine and the meaning of one pass of its
 * detection pipeline over one telemetry snapshot, stage by stage.
 */
module FuelModel {
  import opened Common
  import opened Medians

  /** What the engine reads about a vehicle when its state is first created. */
  datatype Vehicle = Vehicle(sensorFitted: bool, tankCapacity: real, litresUnit: bool)

  /** Thresholds of one processing run; durations are in seconds. */
  datatype Config = Config(
    medianWindow: nat, spikeDeviationPct: real, noiseFloorPct: real,
    refillThresholdL: real, theftThresholdL: real, siphonThresholdL: real,
    siphonStop: nat, stopSpeedKmh: real, odoToleranceKm: real,
    abnormalLPerKm: real, abnormalMarginPct: real, gapTolerance: nat,
    weightTheft: real, weightOdoRollback: real)
  {
    /** The guarantees of loadConfig, plus a window of at least one reading. */
    predicate Valid() {
      && medianWindow >= 1
      && spikeDeviationPct > 0.0 && noiseFloorPct >= 0.0
      && refillThresholdL > 0.0 && theftThresholdL > 0.0 && siphonThresholdL > 0.0
      && siphonStop > 0 && gapTolerance > 0
    }
  }

  /** Unlisted stands for every status the engine does not treat as active or in transit. */
  datatype TripStatus = Scheduled | Assigned | Started | InTransit | Delivered | Unlisted

  predicate IsActive(status: TripStatus) {
    status in {Scheduled, Assigned, Started, InTransit, Delivered}
  }

  /** One telemetry row; ts counts seconds, 0 being Go's zero time. The status and driver of
      the trip are what the engine's lookup answered when it processed the row. Stored times are
      compared as text: the row compares as newer than every watermark before ts + reach. */
  datatype Snapshot = Snapshot(
    id: nat, ts: nat, tripID: string, driverID: string,
    speed: real, fuelLevel: real, odometer: real,
    lookedUpStatus: TripStatus, lookedUpDriver: string, reach: nat)
  {
    function Status(): TripStatus {
      if tripID == "" then Unlisted else lookedUpStatus
    }

    function TripDriver(): string {
      if tripID == "" then "" else lookedUpDriver
    }

    predicate Active() {
      tripID == "" || IsActive(Status())
    }
  }

  /** Fields of vehicleFuelState; NaN is None and a zero time is 0. */
  datatype RawState = State(
    window: seq<real>, pendingSpike: Option<real>,
    lastLevel: Option<real>, baseline: Option<real>,
    lastOdometer: real, lastTs: nat, refillPending: real,
    stopStart: nat, tripID: string, driverID: string, tripActive: bool)

  const INITIAL: RawState := State([], None, None, None, 0.0, 0, 0.0, 0, "", "", false)

  /** Before the first reading there is neither level nor baseline nor history; afterwards there are both levels. */
  predicate Coherent(st: RawState) {
    && (st.lastLevel.Some? <==> st.baseline.Some?)
    && (st.lastLevel.None? ==> st.window == [] && st.pendingSpike.None?)
  }

  type State = st: RawState | Coherent(st) witness INITIAL

  datatype EventType = OdometerRollback | SiphonConfirmed | DrainTheftSuspected | AbnormalDrain | RefillDetected

  datatype Severity = Critical | High | Medium | Low

  datatype Behaviour = FuelTheftSuspicion(weight: real) | RollbackBehaviour(weight: real)

  datatype Event = Event(
    kind: EventType, estimated: real, confidence: real, before: real, after: real,
    odoBefore: real, severity: Severity, behaviour: Option<Behaviour>)

  /** Calls made to the scorecard and siphon hooks after a commit. */
  datatype Hook = ScoreHook(driverID: string) | SiphonHook(tripID: string, driverID: string, drop: real, stopMinutes: nat)

  /** Whether the two transactions a snapshot may need would commit. */
  datatype Commits = Commits(odo: bool, level: bool)

  /** raised: events handed to a transaction; committed: those that became durable. */
  datatype Outcome = Outcome(st: State, raised: seq<Event>, committed: seq<Event>, hooks: seq<Hook>, failed: bool)

  // ------------------------------------------------------------- trip context, gap, watermark

  predicate TripEnds(st: State, s: Snapshot) {
    st.tripActive && !s.Active() && st.tripID == s.tripID
  }

  function EnterTrip(st: State, s: Snapshot): State {
    var flushed := if TripEnds(st, s) then st.(refillPending := 0.0, baseline := st.lastLevel) else st;
    flushed.(
      tripID := s.tripID,
      driverID := if s.driverID != "" then s.driverID else if s.TripDriver() != "" then s.TripDriver() else st.driverID,
      tripActive := s.Active())
  }

  predicate GapResets(cfg: Config, st: State, s: Snapshot, warmup: bool) {
    !warmup && st.lastTs != 0 && s.ts - st.lastTs > cfg.gapTolerance
  }

  function CrossGap(cfg: Config, st: State, s: Snapshot, warmup: bool): State {
    if GapResets(cfg, st, s, warmup) then st.(window := [], baseline := st.lastLevel, stopStart := 0) else st
  }

  /** Everything that happens before the odometer guard. */
  function Enter(cfg: Config, st: State, s: Snapshot, warmup: bool): State {
    var here := CrossGap(cfg, EnterTrip(st, s), s, warmup);
    here.(lastTs := if s.ts > here.lastTs then s.ts else here.lastTs)
  }

  // ------------------------------------------------------------- odometer guard

  predicate RollsBack(cfg: Config, st: State, s: Snapshot) {
    s.odometer > 0.0 && st.lastOdometer > 0.0 && s.odometer < st.lastOdometer - cfg.odoToleranceKm
  }

  function RollbackEvents(cfg: Config, st: State, s: Snapshot): seq<Event> {
    if RollsBack(cfg, st, s) then
      [Event(OdometerRollback, st.lastOdometer - s.odometer, 1.0, st.lastOdometer, s.odometer, st.lastOdometer,
             High, Some(RollbackBehaviour(cfg.weightOdoRollback)))]
    else []
  }

  function MoveOdometer(st: State, s: Snapshot): State {
    if s.odometer <= 0.0 then st else st.(lastOdometer := s.odometer)
  }

  // ------------------------------------------------------------- reading and smoothing

  function ClampFuel(level: real, capacity: real): real {
    if level < 0.0 then 0.0 else if level > capacity then capacity else level
  }

  function ToLitres(v: Vehicle, level: real): real {
    if v.litresUnit then level else level * v.tankCapacity / 100.0
  }

  function Litres(v: Vehicle, s: Snapshot): real {
    ToLitres(v, ClampFuel(s.fuelLevel, v.tankCapacity))
  }

  predicate LevelChecked(v: Vehicle) {
    v.sensorFitted && v.tankCapacity > 0.0
  }

  predicate Deviates(reading: real, med: real, pct: real) {
    if med < 0.000000001 then reading > 0.000000001 else Abs(reading - med) / med > pct / 100.0
  }

  /** What smoothing does with one reading. */
  datatype Smoothing = First | Held | Evaluated(window: seq<real>)

  function Smooth(cfg: Config, st: State, litres: real): (r: Smoothing)
    requires cfg.Valid()
    ensures r.Evaluated? ==> r.window != []
  {
    if st.lastLevel.None? then First
    else if st.pendingSpike.Some? then Evaluated(LastN(st.window + [st.pendingSpike.value] + [litres], cfg.medianWindow))
    else if st.window != [] && Deviates(litres, Median(st.window), cfg.spikeDeviationPct) then Held
    else Evaluated(LastN(st.window + [litres], cfg.medianWindow))
  }

  lemma FirstIffNoLevel(cfg: Config, at: State, litres: real)
    requires cfg.Valid()
    ensures Smooth(cfg, at, litres).First? <==> at.lastLevel.None?
  {
    hide Deviates, Median;
  }

  predicate Stationary(cfg: Config, s: Snapshot) {
    Abs(s.speed) < cfg.stopSpeedKmh
  }

  // ------------------------------------------------------------- detection

  function ExpectedBurn(odoBefore: real, s: Snapshot, cfg: Config): real {
    (if s.odometer > 0.0 && odoBefore > 0.0 then s.odometer - odoBefore else 0.0)
    * cfg.abnormalLPerKm * (1.0 + cfg.abnormalMarginPct / 100.0)
  }

  function StopStart(cfg: Config, st: State, s: Snapshot): nat {
    if !Stationary(cfg, s) then 0 else if st.stopStart == 0 then s.ts else st.stopStart
  }

  /** The branch of the threshold switch that one smoothed level takes. */
  function Classify(cfg: Config, st: State, s: Snapshot, smoothed: real, odoBefore: real): Option<EventType>
    requires st.baseline.Some?
  {
    var drop := st.baseline.value - smoothed;
    var start := StopStart(cfg, st, s);
    if Stationary(cfg, s) && st.tripActive && start != 0 && s.ts - start >= cfg.siphonStop && drop >= cfg.siphonThresholdL then
      Some(SiphonConfirmed)
    else if Stationary(cfg, s) && st.tripActive && drop >= cfg.theftThresholdL then
      Some(DrainTheftSuspected)
    else if !Stationary(cfg, s) && st.tripActive && s.Status() == InTransit && drop >= ExpectedBurn(odoBefore, s, cfg) then
      Some(AbnormalDrain)
    else if smoothed - st.baseline.value >= cfg.refillThresholdL then
      Some(RefillDetected)
    else None
  }

  function LevelEvent(cfg: Config, kind: EventType, baseline: real, smoothed: real, odoBefore: real): Event {
    var drop := baseline - smoothed;
    match kind
    case SiphonConfirmed =>
      Event(kind, drop, 1.0, baseline, smoothed, odoBefore, Critical, Some(FuelTheftSuspicion(cfg.weightTheft)))
    case DrainTheftSuspected =>
      Event(kind, drop, 1.0, baseline, smoothed, odoBefore, High, Some(FuelTheftSuspicion(cfg.weightTheft)))
    case AbnormalDrain => Event(kind, drop, 0.9, baseline, smoothed, odoBefore, Medium, None)
    case _ => Event(kind, -drop, 1.0, baseline, smoothed, odoBefore, Low, None)
  }

  /** An eventless baseline follows the level when the vehicle moved or the change is noise. */
  predicate BaselineFollows(v: Vehicle, cfg: Config, s: Snapshot, delta: real) {
    !Stationary(cfg, s) || Abs(delta) < v.tankCapacity * cfg.noiseFloorPct / 100.0
  }

  function Detect(v: Vehicle, cfg: Config, st: State, s: Snapshot, smoothed: real, delta: real, odoBefore: real): (r: (State, seq<Event>))
    requires st.baseline.Some?
    ensures r.0.baseline.Some? && |r.1| <= 1
  {
    var stopped := st.(stopStart := StopStart(cfg, st, s));
    var base := st.baseline.value;
    match Classify(cfg, st, s, smoothed, odoBefore)
    case None =>
      (if BaselineFollows(v, cfg, s, delta) then stopped.(baseline := Some(smoothed)) else stopped, [])
    case Some(kind) =>
      var refilled := if kind == RefillDetected then st.refillPending + (smoothed - base) else st.refillPending;
      (stopped.(baseline := Some(smoothed), refillPending := refilled), [LevelEvent(cfg, kind, base, smoothed, odoBefore)])
  }

  /** A smoothed level goes through detection and becomes the last level. */
  function Evaluate(v: Vehicle, cfg: Config, st: State, s: Snapshot, w: seq<real>, odoBefore: real): (r: (State, seq<Event>))
    requires w != [] && st.lastLevel.Some?
    ensures r.0.window == w && r.0.pendingSpike.None? && r.0.lastLevel == Some(Median(w)) && |r.1| <= 1
  {
    var m := Median(w);
    var r := Detect(v, cfg, st.(window := w, pendingSpike := None), s, m, m - st.lastLevel.value, odoBefore);
    (r.0.(lastLevel := Some(m)), r.1)
  }

  function LevelStage(v: Vehicle, cfg: Config, st: State, s: Snapshot, odoBefore: real): (State, seq<Event>)
    requires cfg.Valid()
  {
    var litres := Litres(v, s);
    match Smooth(cfg, st, litres)
    case First =>
      (st.(window := [litres], lastLevel := Some(litres), baseline := Some(litres),
           stopStart := if Stationary(cfg, s) then s.ts else st.stopStart), [])
    case Held => (st.(pendingSpike := Some(litres)), [])
    case Evaluated(w) => Evaluate(v, cfg, st, s, w, odoBefore)
  }

  // ------------------------------------------------------------- one snapshot

  function HooksFor(cfg: Config, st: State, s: Snapshot, events: seq<Event>): seq<Hook> {
    if events == [] then [] else
      (if events[0].behaviour.Some? && st.driverID != "" then [ScoreHook(st.driverID)] else [])
      + (if events[0].kind == SiphonConfirmed then
           [SiphonHook(s.tripID, st.driverID, events[0].estimated, cfg.siphonStop / 60)] else [])
  }

  function Step(v: Vehicle, cfg: Config, st: State, s: Snapshot, warmup: bool, ok: Commits): Outcome
    requires cfg.Valid()
  {
    var here := Enter(cfg, st, s, warmup);
    var rollback := RollbackEvents(cfg, here, s);
    if rollback != [] && !ok.odo then Outcome(here, rollback, [], [], true)
    else
      var moved := MoveOdometer(here, s);
      var odoHooks := HooksFor(cfg, moved, s, rollback);
      if !LevelChecked(v) then Outcome(moved, rollback, rollback, odoHooks, false)
      else
        var (next, events) := LevelStage(v, cfg, moved, s, here.lastOdometer);
        if events != [] && !ok.level then Outcome(next, rollback + events, rollback, odoHooks, true)
        else Outcome(next, rollback + events, rollback + events, odoHooks + HooksFor(cfg, next, s, events), false)
  }

  // ------------------------------------------------------------- clamping and units

  /** In percent mode a reading survives the clamp unharmed exactly when it does not exceed
      the tank capacity taken as a number: tanks under 100 litres lose their top readings. */
  lemma PercentReadingSurvivesClamp(v: Vehicle, level: real)
    requires v.tankCapacity > 0.0 && !v.litresUnit && 0.0 <= level <= 100.0
    ensures ToLitres(v, ClampFuel(level, v.tankCapacity)) == level * v.tankCapacity / 100.0 <==> level <= v.tankCapacity
  {
    if level > v.tankCapacity {
      MulStrict(v.tankCapacity, level, v.tankCapacity);
    }
  }

  lemma MulStrict(a: real, b: real, c: real)
    requires a < b && c > 0.0
    ensures a * c < b * c
  {
    assert (b - a) * c > 0.0;
  }

  /** The most litres any reading can stand for. */
  function LitreBound(v: Vehicle): real {
    if v.litresUnit then v.tankCapacity else v.tankCapacity * v.tankCapacity / 100.0
  }

  lemma LitresWithinBound(v: Vehicle, s: Snapshot)
    requires v.tankCapacity > 0.0
    ensures 0.0 <= Litres(v, s) <= LitreBound(v)
    ensures s.fuelLevel >= v.tankCapacity ==> Litres(v, s) == LitreBound(v)
  {
    var c := ClampFuel(s.fuelLevel, v.tankCapacity);
    assert c * v.tankCapacity >= 0.0;
    assert (v.tankCapacity - c) * v.tankCapacity >= 0.0;
  }
}
