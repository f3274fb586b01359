/**
 * Limits of the engine: no level ever exceeds what the tank reading can mean, fuel that leaves
 * below the noise floor is never reported, and a gap can swallow a theft.
 */
module FuelLimits {
  import opened Common
  import opened Medians
  import opened FuelModel
  import opened FuelRuns
  import opened FuelLedger
  import opened FuelDiagnosis

  predicate Within(x: Option<real>, bound: real) {
    x.Some? ==> 0.0 <= x.value <= bound
  }

  predicate LevelsWithin(st: State, bound: real) {
    && (forall k :: 0 <= k < |st.window| ==> 0.0 <= st.window[k] <= bound)
    && Within(st.pendingSpike, bound) && Within(st.lastLevel, bound) && Within(st.baseline, bound)
  }

  predicate EventsWithin(events: seq<Event>, bound: real) {
    forall e :: e in events && e.kind != OdometerRollback ==>
      0.0 <= e.before <= bound && 0.0 <= e.after <= bound && Abs(e.estimated) <= bound
  }

  lemma StepStaysWithin(v: Vehicle, cfg: Config, st: State, i: Input)
    requires cfg.Valid() && LevelsWithin(st, LitreBound(v))
    ensures var o := StepOn(v, cfg, st, i); LevelsWithin(o.st, LitreBound(v)) && EventsWithin(o.raised, LitreBound(v))
  {
    hide StepOn, Litres, LitreBound, Smooth, OdoFails, Evaluate, RollsBack, LevelsWithin, AtLevel;
    StepShape(v, cfg, st, i);
    var here := Enter(cfg, st, i.s, i.warmup);
    EnterStaysWithin(cfg, st, i, LitreBound(v));
    if Reaches(v, cfg, st, i) {
      LitresWithinBound(v, i.s);
      LevelStageStaysWithin(v, cfg, AtLevel(cfg, st, i), i.s, here.lastOdometer, LitreBound(v));
    }
  }

  lemma EnterStaysWithin(cfg: Config, st: State, i: Input, bound: real)
    requires LevelsWithin(st, bound)
    ensures var here := Enter(cfg, st, i.s, i.warmup);
      LevelsWithin(here, bound) && LevelsWithin(MoveOdometer(here, i.s), bound) && LevelsWithin(AtLevel(cfg, st, i), bound)
  {
  }

  lemma LevelStageStaysWithin(v: Vehicle, cfg: Config, at: State, s: Snapshot, odoBefore: real, bound: real)
    requires cfg.Valid() && LevelsWithin(at, bound) && 0.0 <= Litres(v, s) <= bound
    ensures var (next, events) := LevelStage(v, cfg, at, s, odoBefore); LevelsWithin(next, bound) && EventsWithin(events, bound)
  {
    hide Litres, Deviates, Evaluate;
    var smoothing := Smooth(cfg, at, Litres(v, s));
    if smoothing.Evaluated? {
      EvaluateStaysWithin(v, cfg, at, s, smoothing.window, odoBefore, bound);
    }
  }

  lemma EvaluateStaysWithin(v: Vehicle, cfg: Config, at: State, s: Snapshot, w: seq<real>, odoBefore: real, bound: real)
    requires w != [] && at.lastLevel.Some? && LevelsWithin(at, bound)
    requires forall k :: 0 <= k < |w| ==> 0.0 <= w[k] <= bound
    ensures var (next, events) := Evaluate(v, cfg, at, s, w, odoBefore); LevelsWithin(next, bound) && EventsWithin(events, bound)
  {
    hide Median, Classify, BaselineFollows;
  }

  /** Every level, held spike, baseline and reported quantity stays between zero and what a
      full reading means: the capacity in litre mode, its square over 100 in percent mode. */
  lemma {:induction false} LevelsStayWithinTank(v: Vehicle, cfg: Config, run: seq<Input>)
    requires cfg.Valid()
    ensures LevelsWithin(Run(v, cfg, run), LitreBound(v)) && EventsWithin(Raised(v, cfg, run), LitreBound(v))
  {
    hide StepOn, LitreBound;
    if run != [] {
      var before := run[..|run| - 1];
      LevelsStayWithinTank(v, cfg, before);
      StepStaysWithin(v, cfg, Run(v, cfg, before), run[|run| - 1]);
    }
  }

  // ------------------------------------------------------------- losses below the noise floor

  function NoiseFloor(v: Vehicle, cfg: Config): real {
    v.tankCapacity * cfg.noiseFloorPct / 100.0
  }

  predicate FloorBelowThresholds(v: Vehicle, cfg: Config) {
    NoiseFloor(v, cfg) <= cfg.theftThresholdL && NoiseFloor(v, cfg) <= cfg.siphonThresholdL && NoiseFloor(v, cfg) <= cfg.refillThresholdL
  }

  /** The vehicle is not driving in transit, and the level the call acts on, if any, changes by less than the noise floor. */
  predicate QuietCall(v: Vehicle, cfg: Config, st: State, i: Input)
    requires cfg.Valid()
  {
    !DrivingInTransit(cfg, i) && (Acts(v, cfg, st, i) ==> Abs(Change(v, cfg, st, i)) < NoiseFloor(v, cfg))
  }

  ghost predicate QuietStretch(v: Vehicle, cfg: Config, base: seq<Input>, stretch: seq<Input>)
    requires cfg.Valid()
  {
    stretch == [] ||
    var shorter := stretch[..|stretch| - 1];
    QuietStretch(v, cfg, base, shorter) && QuietCall(v, cfg, Run(v, cfg, base + shorter), stretch[|stretch| - 1])
  }

  /** There is a level and the baseline is at it. */
  predicate Settled(st: State) {
    st.lastLevel.Some? && st.baseline == st.lastLevel
  }

  predicate OnlyRollbacks(events: seq<Event>) {
    forall e :: e in events ==> e.kind == OdometerRollback
  }

  lemma QuietEvaluation(v: Vehicle, cfg: Config, at: State, s: Snapshot, w: seq<real>, odoBefore: real)
    requires cfg.Valid() && FloorBelowThresholds(v, cfg) && w != [] && Settled(at)
    requires !(!Stationary(cfg, s) && s.Status() == InTransit)
    requires Abs(Median(w) - at.lastLevel.value) < NoiseFloor(v, cfg)
    ensures var (next, events) := Evaluate(v, cfg, at, s, w, odoBefore); Settled(next) && events == []
  {
    hide Median, ExpectedBurn, Stationary;
  }

  lemma EnterSettled(cfg: Config, st: State, i: Input)
    requires Settled(st)
    ensures Settled(Enter(cfg, st, i.s, i.warmup)) && Settled(AtLevel(cfg, st, i)) && Settled(MoveOdometer(Enter(cfg, st, i.s, i.warmup), i.s))
    ensures AtLevel(cfg, st, i).lastLevel == st.lastLevel
  {
  }

  lemma RollbacksOnly(cfg: Config, st: State, s: Snapshot)
    ensures OnlyRollbacks(RollbackEvents(cfg, st, s))
  {
  }

  lemma QuietStep(v: Vehicle, cfg: Config, st: State, i: Input)
    requires cfg.Valid() && FloorBelowThresholds(v, cfg) && Settled(st) && QuietCall(v, cfg, st, i)
    ensures var o := StepOn(v, cfg, st, i); Settled(o.st) && OnlyRollbacks(o.raised)
  {
    StepShape(v, cfg, st, i);
    EnterSettled(cfg, st, i);
    var here, at := Enter(cfg, st, i.s, i.warmup), AtLevel(cfg, st, i);
    RollbacksOnly(cfg, here, i.s);
    FirstIffNoLevel(cfg, at, Litres(v, i.s));
    var smoothing := Smooth(cfg, at, Litres(v, i.s));
    hide StepOn, Enter, AtLevel, Evaluate, Litres, Smooth, Median, Stationary, NoiseFloor, FloorBelowThresholds, RollbackEvents, OdoFails, MoveOdometer;
    if Acts(v, cfg, st, i) {
      QuietEvaluation(v, cfg, at, i.s, smoothing.window, here.lastOdometer);
    }
    assert RollbackEvents(cfg, here, i.s) + [] == RollbackEvents(cfg, here, i.s);
  }

  /** Fuel that leaves a vehicle in steps below the noise floor is never reported, however much
      leaves and for every configuration whose floor is at most its thresholds: from a level the
      baseline agrees with, nothing but odometer rollbacks is raised, and the whole fall of the level goes unreported. */
  lemma {:induction false} LossBelowNoiseIsNeverReported(v: Vehicle, cfg: Config, base: seq<Input>, stretch: seq<Input>)
    requires cfg.Valid() && FloorBelowThresholds(v, cfg)
    requires Settled(Run(v, cfg, base)) && QuietStretch(v, cfg, base, stretch)
    ensures var before, after := Raised(v, cfg, base), Raised(v, cfg, base + stretch);
      && Settled(Run(v, cfg, base + stretch))
      && before <= after && OnlyRollbacks(after[|before|..])
      && Unreported(v, cfg, base, stretch) == Run(v, cfg, base).lastLevel.value - Run(v, cfg, base + stretch).lastLevel.value
  {
    hide StepOn, Run, Raised, QuietCall, FloorBelowThresholds, RefillLitres, LossLitres, Acts, ResetAdjustment, Drift, Opening, Silent, Litres;
    var before := Raised(v, cfg, base);
    if stretch == [] {
      assert base + stretch == base;
    } else {
      var shorter, i := stretch[..|stretch| - 1], stretch[|stretch| - 1];
      LossBelowNoiseIsNeverReported(v, cfg, base, shorter);
      QuietStep(v, cfg, Run(v, cfg, base + shorter), i);
      OneMoreCall(v, cfg, base + shorter, i);
      assert base + stretch == base + shorter + [i];
      var more := StepOn(v, cfg, Run(v, cfg, base + shorter), i).raised;
      LitresAdd(Raised(v, cfg, base + shorter), more);
      RollbackLitres(more);
      assert Raised(v, cfg, base + stretch)[|before|..] == Raised(v, cfg, base + shorter)[|before|..] + more;
    }
  }

  lemma {:induction false} RollbackLitres(events: seq<Event>)
    requires OnlyRollbacks(events)
    ensures RefillLitres(events) == LossLitres(events) == 0.0
  {
    if events != [] { RollbackLitres(events[..|events| - 1]); }
  }

  // ------------------------------------------------------------- such a leak with the compiled defaults

  /** The compiled defaults. */
  const DEFAULTS := Config(7, 25.0, 1.5, 20.0, 10.0, 15.0, 20 * 60, 5.0, 1.0, 0.6, 30.0, 30 * 60, 25.0, 20.0)

  /** A 100 litre tank read in litres. */
  const TANK := Vehicle(true, 100.0, true)

  function LeakReading(k: nat): Input {
    Input(Snapshot(k, 1000 + k, "", "", 0.0, 100.0 - k as real, 0.0, Unlisted, "", 0), false, Commits(true, true))
  }

  /** A full tank in a parked vehicle losing one litre between readings, n times. */
  function Leak(n: nat): seq<Input> {
    seq(n + 1, k requires 0 <= k => LeakReading(k))
  }

  function LeakWindow(n: nat): seq<real> {
    seq(Min(n + 1, 7), j requires 0 <= j => 100.0 - (n + 1 - Min(n + 1, 7) + j) as real)
  }

  lemma {:induction false} DescendingRank(w: seq<real>, j: nat)
    requires j < |w| && forall i, k :: 0 <= i < k < |w| ==> w[i] > w[k]
    ensures Below(w, w[j]) == |w| - 1 - j && Above(w, w[j]) == j
  {
    var tail := w[1..];
    if j > 0 {
      assert tail[j - 1] == w[j];
      DescendingRank(tail, j - 1);
    } else {
      AllBelow(tail, w[0]);
    }
  }

  lemma {:induction false} AllBelow(s: seq<real>, y: real)
    requires forall i :: 0 <= i < |s| ==> s[i] < y
    ensures Below(s, y) == |s| && Above(s, y) == 0
  {
    if s != [] { AllBelow(s[1..], y); }
  }

  function LeakLevel(n: nat): real {
    100.0 - (n + 1 - Min(n + 1, 7) + Min(n + 1, 7) / 2) as real
  }

  lemma LeakMedian(n: nat)
    ensures Median(LeakWindow(n)) == LeakLevel(n)
  {
    var w := LeakWindow(n);
    var j := |w| / 2;
    assert w[j] == LeakLevel(n);
    DescendingRank(w, j);
    MedianIsTheLowerMedian(w, w[j]);
  }

  predicate Leaking(st: State, n: nat) {
    && st.window == LeakWindow(n) && st.pendingSpike.None?
    && st.lastLevel == Some(LeakLevel(n)) && st.baseline == Some(LeakLevel(n))
    && st.lastOdometer == 0.0 && st.lastTs == 1000 + n && st.tripActive && st.tripID == ""
  }

  lemma LeakStep(st: State, n: nat)
    requires 0 < n <= 80 && Leaking(st, n - 1)
    ensures var o := StepOn(TANK, DEFAULTS, st, LeakReading(n)); Leaking(o.st, n) && o.raised == []
    ensures Acts(TANK, DEFAULTS, st, LeakReading(n)) && ParkedCall(DEFAULTS, st, LeakReading(n))
    ensures QuietCall(TANK, DEFAULTS, st, LeakReading(n))
  {
    hide StepOn, Median, Evaluate, LeakWindow, LeakLevel, Deviates;
    var i := LeakReading(n);
    LeakMedian(n - 1);
    LeakMedian(n);
    LeakWindowSlides(n);
    LeakDeviation(n);
    LeakIsSlow(n);
    StepShape(TANK, DEFAULTS, st, i);
    LeakEvaluation(AtLevel(DEFAULTS, st, i), n);
  }

  lemma LeakWindowSlides(n: nat)
    requires n > 0
    ensures LastN(LeakWindow(n - 1) + [100.0 - n as real], 7) == LeakWindow(n) && LeakWindow(n) != []
  {
  }

  lemma LeakIsSlow(n: nat)
    requires n > 0
    ensures Abs(LeakLevel(n) - LeakLevel(n - 1)) < 1.5 == NoiseFloor(TANK, DEFAULTS)
  {
  }

  lemma LeakDeviation(n: nat)
    requires 0 < n <= 80
    ensures !Deviates(100.0 - n as real, LeakLevel(n - 1), 25.0)
  {
    SmallQuotient(100.0 - n as real, LeakLevel(n - 1));
  }

  lemma SmallQuotient(x: real, m: real)
    requires m >= 20.0 && Abs(x - m) <= 5.0
    ensures !Deviates(x, m, 25.0)
  {
    QuotientBound(Abs(x - m), m);
  }

  lemma QuotientBound(a: real, m: real)
    requires m > 0.0 && a <= 0.25 * m
    ensures a / m <= 0.25
  {
    assert a / m * m == a;
  }

  lemma LeakEvaluation(at: State, n: nat)
    requires 0 < n <= 80 && at.lastTs == 1000 + n && Leaking(at.(lastTs := 1000 + n - 1), n - 1) && LeakWindow(n) != []
    ensures var (next, events) := Evaluate(TANK, DEFAULTS, at, LeakReading(n).s, LeakWindow(n), 0.0);
      Leaking(next, n) && events == []
  {
    hide Median, LeakWindow;
    LeakMedian(n);
  }

  /** With the compiled defaults, eighty litres can leave a parked vehicle one litre per
      reading without a single event: the theft bound needs changes above the noise floor. */
  lemma {:induction false} SlowLeakIsNeverReported(n: nat)
    requires n <= 80
    ensures DEFAULTS.Valid()
    ensures var st := Run(TANK, DEFAULTS, Leak(n));
      Leaking(st, n) && st.lastLevel.value <= 104.0 - n as real && Raised(TANK, DEFAULTS, Leak(n)) == []
  {
    hide StepOn, LeakWindow;
    var run := Leak(n);
    if n == 0 {
      LeakStart();
      assert run == [LeakReading(0)] && run[..0] == [];
    } else {
      SlowLeakIsNeverReported(n - 1);
      assert run[..n] == Leak(n - 1) && run[n] == LeakReading(n);
      LeakStep(Run(TANK, DEFAULTS, Leak(n - 1)), n);
    }
  }

  lemma LeakStart()
    ensures var o := StepOn(TANK, DEFAULTS, INITIAL, LeakReading(0)); Leaking(o.st, 0) && o.raised == []
  {
  }

  /** The reading before the leak shows, and the leak itself. */
  function LeakStretch(n: nat): seq<Input> {
    Leak(n)[1..]
  }

  lemma {:induction false} LeakIsParked(n: nat)
    requires n <= 80
    ensures Leak(0) + LeakStretch(n) == Leak(n)
    ensures ParkedStretch(TANK, DEFAULTS, Leak(0), LeakStretch(n)) && QuietStretch(TANK, DEFAULTS, Leak(0), LeakStretch(n))
    ensures n > 0 ==> Acts(TANK, DEFAULTS, Run(TANK, DEFAULTS, Leak(n - 1)), LeakReading(n))
  {
    hide StepOn, Run, Leaking, ParkedCall, QuietCall, Acts;
    if n > 0 {
      LeakIsParked(n - 1);
      var stretch := LeakStretch(n);
      assert stretch[..n - 1] == LeakStretch(n - 1) && stretch[n - 1] == LeakReading(n);
      SlowLeakIsNeverReported(n - 1);
      LeakStep(Run(TANK, DEFAULTS, Leak(n - 1)), n);
    }
  }

  /** The leak is a parked stretch whose last reading is acted on, and it loses more than the theft
      threshold unreported: the bound of LossAboveNoiseIsReported does need its noise condition. */
  lemma NoiseConditionIsNeeded(n: nat)
    requires 14 <= n <= 80
    ensures var base, stretch := Leak(0), LeakStretch(n);
      && DEFAULTS.Valid() && Run(TANK, DEFAULTS, base).lastLevel.Some? && stretch != []
      && ParkedStretch(TANK, DEFAULTS, base, stretch)
      && Acts(TANK, DEFAULTS, Run(TANK, DEFAULTS, base + stretch[..|stretch| - 1]), stretch[|stretch| - 1])
      && Run(TANK, DEFAULTS, base + stretch).lastLevel.Some?
      && Unreported(TANK, DEFAULTS, base, stretch) >= DEFAULTS.theftThresholdL
  {
    hide StepOn, Run, Raised, ParkedStretch, Acts, LeakWindow;
    SlowLeakIsNeverReported(0);
    SlowLeakIsNeverReported(n);
    LeakIsParked(n);
    var stretch := LeakStretch(n);
    assert Leak(0) + stretch[..n - 1] == Leak(n - 1) && stretch[n - 1] == LeakReading(n);
  }

  // ------------------------------------------------------------- a gap that swallows a theft

  function ParkedReading(k: nat, ts: nat, trip: string, level: real): Input {
    Input(Snapshot(k, ts, trip, "", 0.0, level, 0.0, Unlisted, "", 0), false, Commits(true, true))
  }

  /** Fifteen litres go while trip T is over; half an hour and a second later the vehicle reports again. */
  const GAP_RUN := [ParkedReading(0, 900, "T", 80.0), ParkedReading(1, 1000, "T", 65.0), ParkedReading(2, 2801, "", 65.0)]

  lemma MedianOfTwo(a: real, b: real)
    requires a >= b
    ensures Median([a]) == a && Median([a, b]) == b
  {
    hide Median;
    assert [a, b][1..] == [b] && [b][1..] == [] && [a][1..] == [];
    assert Below([b], b) == Above([b], b) == 0 && Below([a], a) == Above([a], a) == 0;
    MedianIsTheLowerMedian([a, b], b);
    MedianIsTheLowerMedian([a], a);
  }

  predicate Parked(st: State, ts: nat, trip: string, active: bool, w: seq<real>, baseline: real, level: real) {
    && st.window == w && st.pendingSpike.None? && st.lastLevel == Some(level) && st.baseline == Some(baseline)
    && st.lastOdometer == 0.0 && st.lastTs == ts && st.tripID == trip && st.tripActive == active
  }

  lemma FirstParked()
    ensures var o := StepOn(TANK, DEFAULTS, INITIAL, GAP_RUN[0]); Parked(o.st, 900, "T", false, [80.0], 80.0, 80.0) && o.raised == []
  {
  }

  lemma LossWhileInactive(st: State)
    requires Parked(st, 900, "T", false, [80.0], 80.0, 80.0)
    ensures var o := StepOn(TANK, DEFAULTS, st, GAP_RUN[1]); Parked(o.st, 1000, "T", false, [80.0, 65.0], 80.0, 65.0) && o.raised == []
  {
    hide StepOn, Median;
    StepShape(TANK, DEFAULTS, st, GAP_RUN[1]);
    MedianOfTwo(80.0, 65.0);
    assert [80.0] + [65.0] == [80.0, 65.0];
  }

  lemma BackAfterGap(st: State)
    requires Parked(st, 1000, "T", false, [80.0, 65.0], 80.0, 65.0)
    ensures var i := GAP_RUN[2];
      && Acts(TANK, DEFAULTS, st, i) && Stationary(DEFAULTS, i.s) && i.s.Active() && Gap(DEFAULTS, st, i)
      && Change(TANK, DEFAULTS, st, i) == 0.0 && StepOn(TANK, DEFAULTS, st, i).raised == []
  {
    hide StepOn, Median;
    StepShape(TANK, DEFAULTS, st, GAP_RUN[2]);
    MedianOfTwo(65.0, 65.0);
    assert [] + [65.0] == [65.0];
  }

  /** The last reading of the run moves the baseline silently by fifteen litres against a theft
      threshold of ten, and the run raises nothing. */
  lemma GapSwallowsTheft()
    ensures DEFAULTS.Valid()
    ensures var st, i := Run(TANK, DEFAULTS, GAP_RUN[..2]), GAP_RUN[2];
      && Acts(TANK, DEFAULTS, st, i) && Stationary(DEFAULTS, i.s) && i.s.Active() && Gap(DEFAULTS, st, i)
      && LostInGap(TANK, DEFAULTS, st, i) == 15.0 && Adjustment(TANK, DEFAULTS, st, i) == -15.0
      && DEFAULTS.theftThresholdL == 10.0 && Raised(TANK, DEFAULTS, GAP_RUN) == []
  {
    hide StepOn, Run, Raised, Acts, Gap, LostInGap, Drift, ResetAdjustment, Opening, Silent, Change, Reaches;
    var run := GAP_RUN;
    assert run[..2] == [] + [run[0]] + [run[1]] && run == run[..2] + [run[2]];
    StartOfRun();
    OneMoreCall(TANK, DEFAULTS, [], run[0]);
    FirstParked();
    OneMoreCall(TANK, DEFAULTS, [] + [run[0]], run[1]);
    LossWhileInactive(Run(TANK, DEFAULTS, [] + [run[0]]));
    OneMoreCall(TANK, DEFAULTS, run[..2], run[2]);
    BackAfterGap(Run(TANK, DEFAULTS, run[..2]));
    SwallowedInGap(Run(TANK, DEFAULTS, run[..2]));
  }

  lemma StartOfRun()
    ensures Run(TANK, DEFAULTS, []) == INITIAL && Raised(TANK, DEFAULTS, []) == []
  {
  }

  lemma SwallowedInGap(st: State)
    requires Parked(st, 1000, "T", false, [80.0, 65.0], 80.0, 65.0)
    requires Acts(TANK, DEFAULTS, st, GAP_RUN[2]) && Gap(DEFAULTS, st, GAP_RUN[2]) && Change(TANK, DEFAULTS, st, GAP_RUN[2]) == 0.0
    ensures LostInGap(TANK, DEFAULTS, st, GAP_RUN[2]) == 15.0 && Adjustment(TANK, DEFAULTS, st, GAP_RUN[2]) == -15.0
  {
    hide Acts, Gap, Drift, ResetAdjustment, Change;
    assert Stationary(DEFAULTS, GAP_RUN[2].s) && GAP_RUN[2].s.Active();
    DriftAfterGap(TANK, DEFAULTS, st, GAP_RUN[2]);
    ActiveReset(DEFAULTS, st, GAP_RUN[2]);
  }
}
