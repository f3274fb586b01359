/**
 * Runs of the pipeline: any sequence of snapshots, with any pattern of failing commits.
 * The theorems here hold for every such run.
 */
module FuelRuns {
  import opened Common
  import opened Medians
  import opened FuelModel

  /** One pipeline call: the snapshot, whether it is a warm-up replay, and whether its transactions commit. */
  datatype Input = Input(s: Snapshot, warmup: bool, ok: Commits)

  function StepOn(v: Vehicle, cfg: Config, st: State, i: Input): Outcome
    requires cfg.Valid()
  {
    Step(v, cfg, st, i.s, i.warmup, i.ok)
  }

  /** The state after a run that starts with no history. */
  function Run(v: Vehicle, cfg: Config, run: seq<Input>): State
    requires cfg.Valid()
  {
    if run == [] then INITIAL else StepOn(v, cfg, Run(v, cfg, run[..|run| - 1]), run[|run| - 1]).st
  }

  /** The outcome of the last call of a run. */
  function Latest(v: Vehicle, cfg: Config, run: seq<Input>): Outcome
    requires cfg.Valid() && run != []
  {
    StepOn(v, cfg, Run(v, cfg, run[..|run| - 1]), run[|run| - 1])
  }

  function Raised(v: Vehicle, cfg: Config, run: seq<Input>): seq<Event>
    requires cfg.Valid()
  {
    if run == [] then [] else Raised(v, cfg, run[..|run| - 1]) + Latest(v, cfg, run).raised
  }

  function Committed(v: Vehicle, cfg: Config, run: seq<Input>): seq<Event>
    requires cfg.Valid()
  {
    if run == [] then [] else Committed(v, cfg, run[..|run| - 1]) + Latest(v, cfg, run).committed
  }

  // ------------------------------------------------------------- which calls reach the level stage

  predicate OdoFails(cfg: Config, st: State, i: Input) {
    RollsBack(cfg, Enter(cfg, st, i.s, i.warmup), i.s) && !i.ok.odo
  }

  predicate Reaches(v: Vehicle, cfg: Config, st: State, i: Input) {
    LevelChecked(v) && !OdoFails(cfg, st, i)
  }

  /** The state in which the level stage finds the vehicle. */
  function AtLevel(cfg: Config, st: State, i: Input): State {
    MoveOdometer(Enter(cfg, st, i.s, i.warmup), i.s)
  }

  predicate Gap(cfg: Config, st: State, i: Input) {
    GapResets(cfg, EnterTrip(st, i.s), i.s, i.warmup)
  }

  /** A call either stops before the level stage and leaves smoothing and levels as Enter left
      them, or is the level stage. */
  lemma StepShape(v: Vehicle, cfg: Config, st: State, i: Input)
    requires cfg.Valid()
    ensures var o := StepOn(v, cfg, st, i); var here := Enter(cfg, st, i.s, i.warmup);
      if Reaches(v, cfg, st, i) then
        var (next, events) := LevelStage(v, cfg, AtLevel(cfg, st, i), i.s, here.lastOdometer);
        && o.st == next
        && o.raised == RollbackEvents(cfg, here, i.s) + events
        && o.failed == (events != [] && !i.ok.level)
      else
        && o.st == (if OdoFails(cfg, st, i) then here else MoveOdometer(here, i.s))
        && o.raised == RollbackEvents(cfg, here, i.s)
        && o.failed == OdoFails(cfg, st, i)
  {
  }

  // ------------------------------------------------------------- window refinement

  /** What of the readings survives entering a call. */
  function KeptReadings(cfg: Config, st: State, i: Input, readings: seq<real>): seq<real> {
    if !Gap(cfg, st, i) then readings else if st.pendingSpike.Some? then [st.pendingSpike.value] else []
  }

  /** What one call makes of the readings so far: a gap drops them all but a spike still
      waiting to be judged, and a call that reaches the level stage adds one. */
  function Extend(v: Vehicle, cfg: Config, st: State, i: Input, readings: seq<real>): seq<real> {
    var kept := KeptReadings(cfg, st, i, readings);
    if Reaches(v, cfg, st, i) then kept + [Litres(v, i.s)] else kept
  }

  /** The level readings since the last gap, in order. */
  function Readings(v: Vehicle, cfg: Config, run: seq<Input>): seq<real>
    requires cfg.Valid()
  {
    if run == [] then [] else
      Extend(v, cfg, Run(v, cfg, run[..|run| - 1]), run[|run| - 1], Readings(v, cfg, run[..|run| - 1]))
  }

  /** The window is the recent end of the readings, short of the spike being held. */
  ghost predicate WindowShows(cfg: Config, st: State, readings: seq<real>) {
    match st.pendingSpike
    case None => st.window == LastN(readings, cfg.medianWindow)
    case Some(p) =>
      && readings != [] && readings[|readings| - 1] == p
      && st.window == LastN(readings[..|readings| - 1], cfg.medianWindow)
  }

  lemma LastNGrows<T>(s: seq<T>, w: seq<T>, n: nat, x: T)
    requires w == LastN(s, n)
    ensures LastN(w + [x], n) == LastN(s + [x], n)
  {
  }

  lemma LastNGrowsTwice<T>(s: seq<T>, w: seq<T>, n: nat, x: T, y: T)
    requires w == LastN(s, n)
    ensures LastN(w + [x] + [y], n) == LastN(s + [x] + [y], n)
  {
  }

  lemma SmoothKeepsWindow(cfg: Config, st: State, litres: real, readings: seq<real>)
    requires cfg.Valid() && WindowShows(cfg, st, readings)
    requires st.lastLevel.None? ==> readings == []
    ensures var grown := readings + [litres];
      match Smooth(cfg, st, litres)
      case First => grown == [litres] == LastN(grown, cfg.medianWindow)
      case Held => st.pendingSpike.None? && grown[..|grown| - 1] == readings
      case Evaluated(w) => w == LastN(grown, cfg.medianWindow)
  {
    var grown := readings + [litres];
    assert grown[..|readings|] == readings;
    if st.lastLevel.Some? {
      if st.pendingSpike.Some? {
        var before := readings[..|readings| - 1];
        LastNGrowsTwice(before, st.window, cfg.medianWindow, st.pendingSpike.value, litres);
        assert before + [st.pendingSpike.value] + [litres] == grown;
      } else {
        LastNGrows(readings, st.window, cfg.medianWindow, litres);
      }
    }
  }

  lemma LevelStageKeepsWindow(v: Vehicle, cfg: Config, st: State, s: Snapshot, odoBefore: real, readings: seq<real>)
    requires cfg.Valid() && WindowShows(cfg, st, readings)
    requires st.lastLevel.None? ==> readings == []
    ensures var next := LevelStage(v, cfg, st, s, odoBefore).0; var grown := readings + [Litres(v, s)];
      && WindowShows(cfg, next, grown)
      && (next.pendingSpike.None? ==> next.lastLevel == Some(Median(LastN(grown, cfg.medianWindow))))
  {
    hide Litres, Smooth, Evaluate;
    var litres := Litres(v, s);
    SmoothKeepsWindow(cfg, st, litres, readings);
    if Smooth(cfg, st, litres).First? {
      MedianIsTheLowerMedian([litres], litres);
    }
  }

  lemma EnterKeepsWindow(cfg: Config, st: State, i: Input, readings: seq<real>)
    requires WindowShows(cfg, st, readings) && (st.lastLevel.None? ==> readings == [])
    ensures var here, kept := Enter(cfg, st, i.s, i.warmup), KeptReadings(cfg, st, i, readings);
      && WindowShows(cfg, here, kept) && WindowShows(cfg, AtLevel(cfg, st, i), kept) && WindowShows(cfg, MoveOdometer(here, i.s), kept)
      && here.lastLevel == AtLevel(cfg, st, i).lastLevel == MoveOdometer(here, i.s).lastLevel == st.lastLevel
      && (st.lastLevel.None? ==> kept == [])
  {
  }

  lemma StepKeepsWindow(v: Vehicle, cfg: Config, st: State, i: Input, readings: seq<real>)
    requires cfg.Valid() && WindowShows(cfg, st, readings)
    requires st.lastLevel.None? ==> readings == []
    ensures var next := StepOn(v, cfg, st, i).st; var grown := Extend(v, cfg, st, i, readings);
      && WindowShows(cfg, next, grown)
      && (next.lastLevel.None? ==> grown == [])
      && (Reaches(v, cfg, st, i) && next.pendingSpike.None? ==>
            grown != [] && next.lastLevel == Some(Median(LastN(grown, cfg.medianWindow))))
  {
    hide StepOn, LevelStage, Litres, OdoFails, Median, Enter, AtLevel, MoveOdometer, WindowShows, Gap, LastN, RollbackEvents;
    StepShape(v, cfg, st, i);
    EnterKeepsWindow(cfg, st, i, readings);
    LevelStageKeepsWindow(v, cfg, AtLevel(cfg, st, i), i.s, Enter(cfg, st, i.s, i.warmup).lastOdometer, KeptReadings(cfg, st, i, readings));
    LevelStageHasLevel(v, cfg, AtLevel(cfg, st, i), i.s, Enter(cfg, st, i.s, i.warmup).lastOdometer);
  }

  lemma LevelStageHasLevel(v: Vehicle, cfg: Config, st: State, s: Snapshot, odoBefore: real)
    requires cfg.Valid()
    ensures LevelStage(v, cfg, st, s, odoBefore).0.lastLevel.Some?
  {
    hide Evaluate, Litres;
  }

  /** Over every run, window plus held spike is exactly the recent end of the readings:
      nothing lost, repeated or reordered. */
  lemma {:induction false} WindowIsRecentReadings(v: Vehicle, cfg: Config, run: seq<Input>)
    requires cfg.Valid()
    ensures var st := Run(v, cfg, run); var readings := Readings(v, cfg, run);
      WindowShows(cfg, st, readings) && |st.window| <= cfg.medianWindow && (st.lastLevel.None? ==> readings == [])
  {
    if run != [] {
      var before := run[..|run| - 1];
      WindowIsRecentReadings(v, cfg, before);
      StepKeepsWindow(v, cfg, Run(v, cfg, before), run[|run| - 1], Readings(v, cfg, before));
    }
  }

  /** Whenever a call is acted on, the new level is the median of the readings themselves:
      smoothing depends on the vehicle's recent history and on nothing else. */
  lemma SmoothingIsMedianOfHistory(v: Vehicle, cfg: Config, run: seq<Input>)
    requires cfg.Valid() && run != []
    requires Reaches(v, cfg, Run(v, cfg, run[..|run| - 1]), run[|run| - 1])
    ensures var st := Run(v, cfg, run); var readings := Readings(v, cfg, run);
      st.pendingSpike.None? ==>
        readings != [] && st.lastLevel == Some(Median(LastN(readings, cfg.medianWindow)))
  {
    var before := run[..|run| - 1];
    WindowIsRecentReadings(v, cfg, before);
    StepKeepsWindow(v, cfg, Run(v, cfg, before), run[|run| - 1], Readings(v, cfg, before));
  }
}
