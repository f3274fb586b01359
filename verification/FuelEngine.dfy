/**
 * The engine as it runs: one mutable state object per vehicle, changed step by step by the
 * pipeline, and the state map swept vehicle by vehicle. Every method is tied to the stage
 * functions of FuelModel and the sweeps of FuelSweeps, whose properties are proved there.
 */
module FuelEngine {
  import opened Common
  import opened Medians
  import opened FuelModel
  import opened FuelRuns
  import opened FuelSweeps

  class VehicleFuelState {
    const vehicle: Vehicle

    var window: seq<real>
    var pendingSpike: Option<real>
    var lastLevel: Option<real>
    var baselineLevel: Option<real>
    var lastOdometer: real
    var lastTs: nat
    var refillPending: real
    var stopStart: nat
    var tripID: string
    var driverID: string
    var tripActive: bool

    function View(): RawState
      reads this
    {
      State(window, pendingSpike, lastLevel, baselineLevel, lastOdometer, lastTs, refillPending, stopStart, tripID, driverID, tripActive)
    }

    ghost predicate Valid()
      reads this
    {
      Coherent(View())
    }

    constructor (vehicle: Vehicle)
      ensures this.vehicle == vehicle && Valid() && View() == INITIAL
      ensures window == [] && pendingSpike.None? && lastLevel.None? && baselineLevel.None? && lastOdometer == 0.0
      ensures lastTs == 0 && refillPending == 0.0 && stopStart == 0 && tripID == "" && driverID == "" && !tripActive
    {
      this.vehicle := vehicle;
      window, pendingSpike, lastLevel, baselineLevel := [], None, None, None;
      lastOdometer, lastTs, refillPending, stopStart := 0.0, 0, 0.0, 0;
      tripID, driverID, tripActive := "", "", false;
    }

    method EnterTrip(s: Snapshot)
      requires Valid()
      modifies this`refillPending, this`baselineLevel, this`tripID, this`driverID, this`tripActive
      ensures Valid() && View() == FuelModel.EnterTrip(old(View()), s)
    {
      if tripActive && !s.Active() && tripID == s.tripID {
        refillPending := 0.0;
        baselineLevel := lastLevel;
      }
      tripID := s.tripID;
      if s.driverID != "" {
        driverID := s.driverID;
      } else if s.TripDriver() != "" {
        driverID := s.TripDriver();
      }
      tripActive := s.Active();
    }

    /** Gap tolerance, judged against the previous watermark, and then the watermark. */
    method CrossGap(s: Snapshot, cfg: Config, warmup: bool)
      requires Valid()
      modifies this`window, this`baselineLevel, this`stopStart, this`lastTs
      ensures Valid()
      ensures var here := FuelModel.CrossGap(cfg, old(View()), s, warmup);
        View() == here.(lastTs := if s.ts > here.lastTs then s.ts else here.lastTs)
    {
      if !warmup && lastTs != 0 && s.ts - lastTs > cfg.gapTolerance {
        window := [];
        baselineLevel := lastLevel;
        stopStart := 0;
      }
      if s.ts > lastTs {
        lastTs := s.ts;
      }
    }

    method OdoRollback(s: Snapshot, cfg: Config, commits: bool) returns (committed: seq<Event>, hooks: seq<Hook>, failed: bool)
      requires Valid()
      modifies this`lastOdometer
      ensures Valid()
      ensures failed <==> RollsBack(cfg, old(View()), s) && !commits
      ensures View() == if failed then old(View()) else MoveOdometer(old(View()), s)
      ensures committed == if failed then [] else RollbackEvents(cfg, old(View()), s)
      ensures hooks == HooksFor(cfg, View(), s, committed)
    {
      committed, hooks, failed := [], [], false;
      if s.odometer <= 0.0 {
        return;
      }
      if lastOdometer > 0.0 && s.odometer < lastOdometer - cfg.odoToleranceKm {
        var ev := Event(OdometerRollback, lastOdometer - s.odometer, 1.0, lastOdometer, s.odometer, lastOdometer,
                        High, Some(RollbackBehaviour(cfg.weightOdoRollback)));
        if !commits {
          failed := true;
          return;
        }
        committed := [ev];
        if driverID != "" {
          hooks := [ScoreHook(driverID)];
        }
      }
      lastOdometer := s.odometer;
    }

    /** Classifies one smoothed reading; changes state only, persistence is the pipeline's. */
    method Detect(s: Snapshot, cfg: Config, smoothed: real, delta: real, noise: real, odoBefore: real) returns (events: seq<Event>)
      requires Valid() && baselineLevel.Some?
      requires noise == vehicle.tankCapacity * cfg.noiseFloorPct / 100.0
      modifies this`stopStart, this`baselineLevel, this`refillPending
      ensures Valid() && (View(), events) == FuelModel.Detect(vehicle, cfg, old(View()), s, smoothed, delta, odoBefore)
    {
      var stationary := Abs(s.speed) < cfg.stopSpeedKmh;
      var stoppedFor: int := 0;
      if stationary {
        if stopStart == 0 {
          stopStart := s.ts;
        }
        stoppedFor := s.ts - stopStart;
      } else {
        stopStart := 0;
      }
      var drop := baselineLevel.value - smoothed;
      var jump := smoothed - baselineLevel.value;
      events := [];
      if stationary && tripActive && stopStart != 0 && stoppedFor >= cfg.siphonStop && drop >= cfg.siphonThresholdL {
        events := [Event(SiphonConfirmed, drop, 1.0, baselineLevel.value, smoothed, odoBefore, Critical,
                         Some(FuelTheftSuspicion(cfg.weightTheft)))];
        baselineLevel := Some(smoothed);
      } else if stationary && tripActive && drop >= cfg.theftThresholdL {
        events := [Event(DrainTheftSuspected, drop, 1.0, baselineLevel.value, smoothed, odoBefore, High,
                         Some(FuelTheftSuspicion(cfg.weightTheft)))];
        baselineLevel := Some(smoothed);
      } else if !stationary && tripActive && s.Status() == InTransit && drop >= ExpectedBurn(odoBefore, s, cfg) {
        events := [Event(AbnormalDrain, drop, 0.9, baselineLevel.value, smoothed, odoBefore, Medium, None)];
        baselineLevel := Some(smoothed);
      } else if jump >= cfg.refillThresholdL {
        refillPending := refillPending + jump;
        events := [Event(RefillDetected, jump, 1.0, baselineLevel.value, smoothed, odoBefore, Low, None)];
        baselineLevel := Some(smoothed);
      }
      if events == [] {
        if !stationary || Abs(delta) < noise {
          baselineLevel := Some(smoothed);
        }
      }
    }

    method Append(litres: real, cfg: Config)
      modifies this`window
      ensures window == LastN(old(window) + [litres], cfg.medianWindow)
    {
      window := window + [litres];
      if |window| > cfg.medianWindow {
        window := window[|window| - cfg.medianWindow..];
      }
    }

    /** The first reading sets both levels and, when stationary, the stop timer. */
    method OpenHistory(litres: real, s: Snapshot, cfg: Config)
      requires cfg.Valid() && Valid() && lastLevel.None?
      modifies this
      ensures View() == old(View()).(window := [litres], lastLevel := Some(litres), baseline := Some(litres),
                                     stopStart := if Stationary(cfg, s) then s.ts else old(stopStart))
    {
      assert window + [litres] == [litres];
      Append(litres, cfg);
      lastLevel, baselineLevel := Some(litres), Some(litres);
      if Stationary(cfg, s) {
        stopStart := s.ts;
      }
    }

    /** Smoothing, detection and their effect on the levels. */
    method CheckLevel(s: Snapshot, cfg: Config, odoBefore: real) returns (events: seq<Event>)
      requires cfg.Valid() && Valid()
      modifies this
      ensures Valid() && (View(), events) == LevelStage(vehicle, cfg, old(View()), s, odoBefore)
    {
      hide Deviates, Stationary, FuelModel.Detect, Median, ToLitres, ClampFuel;
      var litres := ToLitres(vehicle, ClampFuel(s.fuelLevel, vehicle.tankCapacity));
      events := [];
      if lastLevel.None? {
        OpenHistory(litres, s, cfg);
        return;
      }
      if pendingSpike.Some? {
        window := window + [pendingSpike.value];
        pendingSpike := None;
      } else if |window| > 0 {
        if Deviates(litres, Median(window), cfg.spikeDeviationPct) {
          pendingSpike := Some(litres);
          return;
        }
      }
      Append(litres, cfg);
      var smoothed := Median(window);
      var delta := smoothed - lastLevel.value;
      events := Detect(s, cfg, smoothed, delta, vehicle.tankCapacity * cfg.noiseFloorPct / 100.0, odoBefore);
      lastLevel := Some(smoothed);
    }

    /** One snapshot through the whole pipeline; `ok` says which of its transactions commit. */
    method Pipeline(s: Snapshot, cfg: Config, warmup: bool, ok: Commits) returns (committed: seq<Event>, hooks: seq<Hook>, failed: bool)
      requires cfg.Valid() && Valid()
      modifies this
      ensures Valid()
      ensures var o := Step(vehicle, cfg, old(View()), s, warmup, ok);
        View() == o.st && committed == o.committed && hooks == o.hooks && failed == o.failed
    {
      hide LevelStage, HooksFor, FuelModel.EnterTrip, FuelModel.CrossGap;
      EnterTrip(s);
      CrossGap(s, cfg, warmup);
      var odoBefore := lastOdometer;
      committed, hooks, failed := OdoRollback(s, cfg, ok.odo);
      if failed {
        NoEventsNoHooks(cfg, View(), s);
        return;
      }
      if !vehicle.sensorFitted || vehicle.tankCapacity <= 0.0 {
        return;
      }
      var events := CheckLevel(s, cfg, odoBefore);
      NoEventsNoHooks(cfg, View(), s);
      if |events| == 0 {
        return;
      }
      if !ok.level {
        failed := true;
        return;
      }
      committed := committed + events;
      hooks := hooks + HooksFor(cfg, View(), s, events);
    }

    lemma NoEventsNoHooks(cfg: Config, st: RawState, s: Snapshot)
      requires Coherent(st)
      ensures HooksFor(cfg, st, s, []) == []
    {
    }
  }

  // ------------------------------------------------------------- queries

  method ArrangeByTime(rows: seq<Snapshot>) returns (p: seq<Snapshot>)
    ensures Arranges(p, rows)
  {
    p := [];
    for n := 0 to |rows|
      invariant Arranges(p, rows[..n])
    {
      p := InsertByTime(p, rows[n]);
      assert rows[..n + 1] == rows[..n] + [rows[n]];
    }
    assert rows[..|rows|] == rows;
  }

  method InsertByTime(p: seq<Snapshot>, s: Snapshot) returns (q: seq<Snapshot>)
    requires InOrder(p)
    ensures InOrder(q) && multiset(q) == multiset(p) + multiset{s}
  {
    var k := |p|;
    while k > 0 && p[k - 1].ts > s.ts
      invariant 0 <= k <= |p|
      invariant forall j :: k <= j < |p| ==> p[j].ts > s.ts
    {
      k := k - 1;
    }
    q := p[..k] + [s] + p[k..];
    InsertionOrdered(p, s, k, q);
  }

  lemma InsertionOrdered(p: seq<Snapshot>, s: Snapshot, k: nat, q: seq<Snapshot>)
    requires InOrder(p) && k <= |p| && q == p[..k] + [s] + p[k..]
    requires (k > 0 ==> p[k - 1].ts <= s.ts) && forall j :: k <= j < |p| ==> p[j].ts > s.ts
    ensures InOrder(q) && multiset(q) == multiset(p) + multiset{s}
  {
    assert p == p[..k] + p[k..];
    Joined(p[..k], [s], s.ts);
    Joined(p[..k] + [s], p[k..], s.ts);
  }

  lemma Joined(a: seq<Snapshot>, b: seq<Snapshot>, ts: nat)
    requires InOrder(a) && InOrder(b)
    requires a != [] ==> a[|a| - 1].ts <= ts
    requires forall j :: 0 <= j < |b| ==> ts <= b[j].ts
    ensures InOrder(a + b)
  {
    forall i | 0 <= i < |a| ensures a[i].ts <= ts {
      if i < |a| - 1 { assert a[i].ts <= a[|a| - 1].ts; }
    }
  }

  function Reversed(s: seq<Snapshot>): seq<Snapshot> {
    seq(|s|, k requires 0 <= k < |s| => s[|s| - 1 - k])
  }

  /** The database's part of the warm-up query: newest first, at most n rows. */
  method NewestFirst(rows: seq<Snapshot>, n: nat) returns (out: array<Snapshot>, ghost p: seq<Snapshot>)
    ensures fresh(out) && Arranges(p, rows) && out[..] == Reversed(LastN(p, n))
  {
    var byTime := ArrangeByTime(rows);
    p := byTime;
    var recent := LastN(byTime, n);
    out := new Snapshot[|recent|](k requires 0 <= k < |recent| => recent[|recent| - 1 - k]);
  }

  /** The last n snapshots, reversed in place into pipeline order. */
  method LoadRecent(rows: seq<Snapshot>, n: nat) returns (batch: seq<Snapshot>)
    ensures IsRecent(rows, n, batch)
  {
    var out, p := NewestFirst(rows, n);
    ghost var newest := out[..];
    var i, j := 0, out.Length - 1;
    while i < j
      invariant 0 <= i <= out.Length && i + j == out.Length - 1 && |newest| == out.Length
      invariant forall k :: 0 <= k < i || j < k < out.Length ==> out[k] == newest[out.Length - 1 - k]
      invariant forall k :: i <= k <= j ==> out[k] == newest[k]
    {
      out[i], out[j] := out[j], out[i];
      i, j := i + 1, j - 1;
    }
    batch := out[..];
    assert batch == LastN(p, n);
  }

  method NewerThan(rows: seq<Snapshot>, after: nat) returns (newer: seq<Snapshot>)
    ensures newer == Newer(rows, after)
  {
    newer := [];
    for n := 0 to |rows|
      invariant newer == Newer(rows[..n], after)
    {
      assert rows[..n + 1][..n] == rows[..n];
      if Passes(rows[n], after) {
        newer := newer + [rows[n]];
      }
    }
    assert rows[..|rows|] == rows;
  }

  /** Snapshots that compare as newer than the watermark, oldest first, up to the cap. */
  method LoadAfter(rows: seq<Snapshot>, after: nat) returns (batch: seq<Snapshot>)
    ensures IsAfter(rows, after, batch)
  {
    if after == 0 {
      return [];
    }
    var newer := NewerThan(rows, after);
    var p := ArrangeByTime(newer);
    batch := Capped(p);
  }

  // ------------------------------------------------------------- the state map

  class FuelEngine {
    var state: map<string, VehicleFuelState>

    /** Each vehicle has a state object of its own. */
    ghost predicate Valid()
      reads this, state.Values
    {
      && (forall a, b :: a in state && b in state && a != b ==> state[a] != state[b])
      && (forall a :: a in state ==> state[a].Valid())
    }

    constructor ()
      ensures Valid() && state == map[]
    {
      state := map[];
    }

    /** The vehicle's entry, created empty when it has none. */
    method EntryFor(vid: string, meta: Vehicle) returns (st: VehicleFuelState, exists_: bool)
      requires Valid()
      modifies this
      ensures Valid() && state == old(state)[vid := st] && exists_ == (vid in old(state))
      ensures exists_ ==> state == old(state)
      ensures !exists_ ==> fresh(st) && st.View() == INITIAL && st.vehicle == meta
    {
      exists_ := vid in state;
      if exists_ {
        st := state[vid];
      } else {
        st := new VehicleFuelState(meta);
        state := state[vid := st];
      }
    }

    /** One vehicle's sweep: warm-up when its entry is new, the rows past the watermark
        otherwise. It is one action of the sweep system on this vehicle, and leaves every other
        vehicle's state as it was. */
    method ProcessVehicle(vid: string, meta: Vehicle, cfg: Config, rows: seq<Snapshot>, queryWorks: bool, oracle: nat -> Commits)
      returns (calls: seq<Input>, failed: bool, ghost action: Action)
      requires cfg.Valid() && Valid()
      modifies this, state.Values
      ensures Valid() && state.Keys == old(state.Keys) + {vid}
      ensures forall other :: other in old(state) && other != vid ==>
        state[other] == old(state[other]) && state[other].View() == old(state[other].View())
      ensures action == QueryFails || action.Sweep?
      ensures queryWorks ==> action.Sweep?
      ensures
        var entry := if vid in old(state) then Some(old(state[vid].View())) else None;
        var sys := System(rows, entry, [], 0, 0);
        && Legal(cfg, sys, action)
        && var next := Apply(state[vid].vehicle, cfg, oracle, sys, action);
           next.entry == Some(state[vid].View()) && next.calls == calls
      ensures vid in old(state) ==> state[vid] == old(state[vid])
      ensures vid !in old(state) ==> state[vid].vehicle == meta
    {
      hide IsRecent, IsAfter, Feed;
      calls, failed := [], false;
      var st, exists_ := EntryFor(vid, meta);
      if !queryWorks {
        action := QueryFails;
        failed := true;
        return;
      }
      var batch;
      if !exists_ {
        batch := LoadRecent(rows, cfg.medianWindow);
      } else {
        batch := LoadAfter(rows, st.lastTs);
      }
      action := Sweep(batch);
      calls, failed := FeedBatch(st, cfg, batch, !exists_, oracle);
    }
  }

  /** Feeds a batch until a call fails. */
  method FeedBatch(st: VehicleFuelState, cfg: Config, batch: seq<Snapshot>, warmup: bool, oracle: nat -> Commits)
    returns (calls: seq<Input>, failed: bool)
    requires cfg.Valid() && st.Valid()
    modifies st
    ensures st.Valid() && (st.View(), calls) == Feed(st.vehicle, cfg, old(st.View()), batch, warmup, oracle)
    ensures failed ==> calls != []
  {
    hide Step;
    ghost var start := st.View();
    calls, failed := [], false;
    assert batch[0..] == batch;
    assert [] + Feed(st.vehicle, cfg, start, batch, warmup, oracle).1 == Feed(st.vehicle, cfg, start, batch, warmup, oracle).1;
    for n := 0 to |batch|
      invariant st.Valid() && !failed
      invariant var (last, rest) := Feed(st.vehicle, cfg, st.View(), batch[n..], warmup, oracle);
        Feed(st.vehicle, cfg, start, batch, warmup, oracle) == (last, calls + rest)
    {
      var i := Input(batch[n], warmup, oracle(batch[n].id));
      assert batch[n..][0] == batch[n] && batch[n..][1..] == batch[n + 1..];
      var committed, hooks, stop := st.Pipeline(batch[n], cfg, warmup, i.ok);
      ghost var rest := Feed(st.vehicle, cfg, st.View(), batch[n + 1..], warmup, oracle).1;
      assert calls + ([i] + rest) == calls + [i] + rest;
      calls := calls + [i];
      if stop {
        failed := true;
        return;
      }
    }
    assert batch[|batch|..] == [] && calls + [] == calls;
  }
}
