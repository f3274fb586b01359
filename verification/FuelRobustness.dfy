/**
 * A glitching sensor raises no alarm as long as its bad readings stay a minority of each window.
 */
module FuelRobustness {
  import opened Common
  import opened Medians
  import opened FuelModel
  import opened FuelRuns

  // ------------------------------------------------------------- glitch immunity

  predicate IsAlarm(kind: EventType) {
    kind in {SiphonConfirmed, DrainTheftSuspected, RefillDetected}
  }

  predicate NoAlarms(events: seq<Event>) {
    forall e :: e in events ==> !IsAlarm(e.kind)
  }

  predicate InBand(st: State, lo: real, hi: real) {
    st.lastLevel.Some? ==> lo <= st.lastLevel.value <= hi && lo <= st.baseline.value <= hi
  }

  /** The first reading lies in the band and any window acted on has a strict minority outside it. */
  predicate MinorityOutside(v: Vehicle, cfg: Config, st: State, i: Input, lo: real, hi: real)
    requires cfg.Valid()
  {
    Reaches(v, cfg, st, i) ==>
      match Smooth(cfg, AtLevel(cfg, st, i), Litres(v, i.s))
      case First => lo <= Litres(v, i.s) <= hi
      case Held => true
      case Evaluated(w) => 2 * Outside(w, lo, hi) < |w|
  }

  predicate MinorityOutsideThroughout(v: Vehicle, cfg: Config, run: seq<Input>, lo: real, hi: real)
    requires cfg.Valid()
  {
    run == [] ||
    var before := run[..|run| - 1];
    MinorityOutsideThroughout(v, cfg, before, lo, hi) && MinorityOutside(v, cfg, Run(v, cfg, before), run[|run| - 1], lo, hi)
  }

  predicate NarrowBand(cfg: Config, lo: real, hi: real) {
    hi - lo < cfg.theftThresholdL && hi - lo < cfg.siphonThresholdL && hi - lo < cfg.refillThresholdL
  }

  lemma EvaluateStaysInBand(v: Vehicle, cfg: Config, at: State, s: Snapshot, w: seq<real>, odoBefore: real, lo: real, hi: real)
    requires w != [] && at.lastLevel.Some? && NarrowBand(cfg, lo, hi)
    requires InBand(at, lo, hi) && 2 * Outside(w, lo, hi) < |w|
    ensures var (next, events) := Evaluate(v, cfg, at, s, w, odoBefore); InBand(next, lo, hi) && NoAlarms(events)
  {
    hide Median, Outside, BaselineFollows, ExpectedBurn;
    MinorityCannotMoveMedian(w, lo, hi);
  }

  lemma StepStaysInBand(v: Vehicle, cfg: Config, st: State, i: Input, lo: real, hi: real)
    requires cfg.Valid() && NarrowBand(cfg, lo, hi)
    requires InBand(st, lo, hi) && MinorityOutside(v, cfg, st, i, lo, hi)
    ensures var o := StepOn(v, cfg, st, i); InBand(o.st, lo, hi) && NoAlarms(o.raised)
  {
    hide StepOn, Evaluate, NarrowBand, Litres, Deviates, Outside, OdoFails, RollsBack;
    StepShape(v, cfg, st, i);
    var here := Enter(cfg, st, i.s, i.warmup);
    var at := AtLevel(cfg, st, i);
    if Reaches(v, cfg, st, i) && Smooth(cfg, at, Litres(v, i.s)).Evaluated? {
      EvaluateStaysInBand(v, cfg, at, i.s, Smooth(cfg, at, Litres(v, i.s)).window, here.lastOdometer, lo, hi);
    }
  }

  /** Glitch immunity. While bad readings stay a strict minority of every window acted on,
      levels and baseline never leave the band, and no theft, siphon or refill is raised in the
      whole run, whatever values the bad readings take. */
  lemma {:induction false} GlitchImmunity(v: Vehicle, cfg: Config, run: seq<Input>, lo: real, hi: real)
    requires cfg.Valid() && NarrowBand(cfg, lo, hi)
    requires MinorityOutsideThroughout(v, cfg, run, lo, hi)
    ensures InBand(Run(v, cfg, run), lo, hi) && NoAlarms(Raised(v, cfg, run))
  {
    hide StepOn, NarrowBand, MinorityOutside;
    if run != [] {
      var before := run[..|run| - 1];
      GlitchImmunity(v, cfg, before, lo, hi);
      StepStaysInBand(v, cfg, Run(v, cfg, before), run[|run| - 1], lo, hi);
    }
  }

  /** The first two readings are good and no stretch of n readings holds two bad ones. */
  ghost predicate SparseGlitches(readings: seq<real>, n: nat, lo: real, hi: real) {
    && (forall k :: 0 <= k < |readings| && k < 2 ==> lo <= readings[k] <= hi)
    && (forall k :: 0 <= k <= |readings| ==> Outside(LastN(readings[..k], n), lo, hi) <= 1)
  }

  predicate NoGaps(v: Vehicle, cfg: Config, run: seq<Input>)
    requires cfg.Valid()
  {
    run == [] || (NoGaps(v, cfg, run[..|run| - 1]) && !Gap(cfg, Run(v, cfg, run[..|run| - 1]), run[|run| - 1]))
  }

  lemma SparseWindow(readings: seq<real>, x: real, n: nat, lo: real, hi: real)
    requires n >= 3 && readings != [] && SparseGlitches(readings + [x], n, lo, hi)
    ensures var w := LastN(readings + [x], n); 2 * Outside(w, lo, hi) < |w|
  {
    var grown := readings + [x];
    var w := LastN(grown[..|grown|], n);
    assert grown[..|grown|] == grown;
    assert Outside(w, lo, hi) <= 1;
    if |grown| == 2 {
      assert w == grown && lo <= w[0] <= hi && lo <= w[1] <= hi;
      assert w[1..][1..] == [];
      assert Outside(w[1..], lo, hi) == 0;
    }
  }

  lemma SparsePrefix(readings: seq<real>, x: real, n: nat, lo: real, hi: real)
    requires SparseGlitches(readings + [x], n, lo, hi)
    ensures SparseGlitches(readings, n, lo, hi)
  {
    hide Outside;
    var grown := readings + [x];
    assert forall k :: 0 <= k < |readings| ==> grown[k] == readings[k];
    forall k | 0 <= k <= |readings| ensures Outside(LastN(readings[..k], n), lo, hi) <= 1 {
      assert grown[..k] == readings[..k];
    }
  }

  /** Without gaps the readings are never dropped, and there are some as soon as there is a level. */
  lemma GapFreeReadingsGrow(v: Vehicle, cfg: Config, st: State, i: Input, readings: seq<real>)
    requires cfg.Valid() && !Gap(cfg, st, i) && (st.lastLevel.Some? ==> readings != [])
    ensures var grown := Extend(v, cfg, st, i, readings);
      && grown == (if Reaches(v, cfg, st, i) then readings + [Litres(v, i.s)] else readings)
      && (StepOn(v, cfg, st, i).st.lastLevel.Some? ==> grown != [])
  {
    hide StepOn, LevelStage, Litres, OdoFails;
    StepShape(v, cfg, st, i);
  }

  /** One isolated glitch per window is harmless: the corollary for real sensors. */
  lemma {:induction false} SparseGlitchesAreMinorities(v: Vehicle, cfg: Config, run: seq<Input>, lo: real, hi: real)
    requires cfg.Valid() && cfg.medianWindow >= 3
    requires NoGaps(v, cfg, run) && SparseGlitches(Readings(v, cfg, run), cfg.medianWindow, lo, hi)
    ensures MinorityOutsideThroughout(v, cfg, run, lo, hi)
    ensures Run(v, cfg, run).lastLevel.Some? ==> Readings(v, cfg, run) != []
  {
    hide StepOn, SparseGlitches, MinorityOutside, Gap, Extend, WindowShows;
    if run != [] {
      var before, i := run[..|run| - 1], run[|run| - 1];
      var st, readings := Run(v, cfg, before), Readings(v, cfg, before);
      SparseStep(v, cfg, before, i, lo, hi);
      SparseGlitchesAreMinorities(v, cfg, before, lo, hi);
      GapFreeReadingsGrow(v, cfg, st, i, readings);
      WindowIsRecentReadings(v, cfg, before);
      SparseStepIsMinority(v, cfg, st, i, readings, lo, hi);
    }
  }

  lemma SparseStep(v: Vehicle, cfg: Config, before: seq<Input>, i: Input, lo: real, hi: real)
    requires cfg.Valid() && !Gap(cfg, Run(v, cfg, before), i)
    requires SparseGlitches(Extend(v, cfg, Run(v, cfg, before), i, Readings(v, cfg, before)), cfg.medianWindow, lo, hi)
    ensures SparseGlitches(Readings(v, cfg, before), cfg.medianWindow, lo, hi)
  {
    hide SparseGlitches, Readings, Run, Litres, OdoFails;
    if Reaches(v, cfg, Run(v, cfg, before), i) {
      SparsePrefix(Readings(v, cfg, before), Litres(v, i.s), cfg.medianWindow, lo, hi);
    }
  }

  lemma SparseStepIsMinority(v: Vehicle, cfg: Config, st: State, i: Input, readings: seq<real>, lo: real, hi: real)
    requires cfg.Valid() && cfg.medianWindow >= 3 && !Gap(cfg, st, i) && WindowShows(cfg, st, readings)
    requires st.lastLevel.Some? <==> readings != []
    requires SparseGlitches(Extend(v, cfg, st, i, readings), cfg.medianWindow, lo, hi)
    ensures MinorityOutside(v, cfg, st, i, lo, hi)
  {
    hide Litres, OdoFails, Deviates, Outside;
    if Reaches(v, cfg, st, i) {
      var litres := Litres(v, i.s);
      var at := AtLevel(cfg, st, i);
      assert at.window == st.window && at.pendingSpike == st.pendingSpike && at.lastLevel == st.lastLevel;
      SmoothKeepsWindow(cfg, at, litres, readings);
      if st.lastLevel.Some? {
        SparseWindow(readings, litres, cfg.medianWindow, lo, hi);
      } else {
        assert (readings + [litres])[0] == litres;
      }
    }
  }

  /** With a window of at least three, good first two readings, no gap, and at most one bad
      reading in any window's worth of readings, the engine raises no false alarm. */
  lemma IsolatedGlitchesRaiseNoAlarm(v: Vehicle, cfg: Config, run: seq<Input>, lo: real, hi: real)
    requires cfg.Valid() && cfg.medianWindow >= 3 && NarrowBand(cfg, lo, hi)
    requires NoGaps(v, cfg, run) && SparseGlitches(Readings(v, cfg, run), cfg.medianWindow, lo, hi)
    ensures InBand(Run(v, cfg, run), lo, hi) && NoAlarms(Raised(v, cfg, run))
  {
    SparseGlitchesAreMinorities(v, cfg, run, lo, hi);
    GlitchImmunity(v, cfg, run, lo, hi);
  }
}
