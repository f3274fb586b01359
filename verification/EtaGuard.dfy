/**
 * The monotonic guard of the ETA service: an arrival may move earlier by at most a fixed
 * amount per call. Over any interleaving of trips it has a closed form per trip.
 */
module EtaGuard {
  import opened Common

  const MINUTE := 60

  /** One call: the trip and the arrival computed for it, in seconds. */
  datatype Call = Call(trip: string, raw: int)

  /** The arrival returned, given the trip's previous one. */
  function Guarded(last: map<string, int>, regress: nat, c: Call): int {
    if c.trip in last && c.raw < last[c.trip] - regress then last[c.trip] - regress else c.raw
  }

  /** The guard's memory after a sequence of calls. */
  function Memory(regress: nat, calls: seq<Call>): map<string, int> {
    if calls == [] then map[] else
      var before := Memory(regress, calls[..|calls| - 1]);
      var c := calls[|calls| - 1];
      before[c.trip := Guarded(before, regress, c)]
  }

  /** The raw arrivals of one trip. */
  function Own(calls: seq<Call>, trip: string): seq<int> {
    if calls == [] then [] else
      Own(calls[..|calls| - 1], trip) + if calls[|calls| - 1].trip == trip then [calls[|calls| - 1].raw] else []
  }

  /** The k-th of the raws, moved earlier by the regress once for each later call. */
  function Decayed(raws: seq<int>, regress: nat, k: nat): int
    requires k < |raws|
  {
    raws[k] - (|raws| - 1 - k) * regress
  }

  /** value is the maximum of the decayed raws. */
  ghost predicate IsLatestBound(raws: seq<int>, regress: nat, value: int) {
    && (forall k :: 0 <= k < |raws| ==> Decayed(raws, regress, k) <= value)
    && (exists k :: 0 <= k < |raws| && Decayed(raws, regress, k) == value)
  }

  lemma DecayedGrows(raws: seq<int>, x: int, regress: nat, k: nat)
    requires k < |raws|
    ensures Decayed(raws + [x], regress, k) == Decayed(raws, regress, k) - regress
  {
    var m := |raws| - 1 - k;
    assert (m + 1) * regress == m * regress + regress;
  }

  lemma BoundExtends(raws: seq<int>, x: int, regress: nat, value: int)
    requires raws != [] ==> IsLatestBound(raws, regress, value)
    ensures IsLatestBound(raws + [x], regress, if raws == [] then x else Max(x, value - regress))
  {
    var all := raws + [x];
    var result := if raws == [] then x else Max(x, value - regress);
    forall k | 0 <= k < |raws| ensures Decayed(all, regress, k) <= result {
      DecayedGrows(raws, x, regress, k);
    }
    assert Decayed(all, regress, |raws|) == x;
    if result != x {
      var k :| 0 <= k < |raws| && Decayed(raws, regress, k) == value;
      DecayedGrows(raws, x, regress, k);
      assert Decayed(all, regress, k) == result;
    }
  }

  /** Closed form. However calls for other trips are interleaved, a trip's arrival is the
      largest of its own raw arrivals, each moved earlier once per later call of its own. */
  lemma {:induction false} GuardClosedForm(regress: nat, calls: seq<Call>, trip: string)
    ensures trip in Memory(regress, calls) <==> Own(calls, trip) != []
    ensures trip in Memory(regress, calls) ==> IsLatestBound(Own(calls, trip), regress, Memory(regress, calls)[trip])
  {
    if calls != [] {
      var before, c := calls[..|calls| - 1], calls[|calls| - 1];
      GuardClosedForm(regress, before, trip);
      hide IsLatestBound, Decayed;
      if c.trip == trip {
        var value := if trip in Memory(regress, before) then Memory(regress, before)[trip] else 0;
        BoundExtends(Own(before, trip), c.raw, regress, value);
      } else {
        assert Own(calls, trip) == Own(before, trip);
      }
    }
  }

  lemma BoundUnique(raws: seq<int>, regress: nat, a: int, b: int)
    requires IsLatestBound(raws, regress, a) && IsLatestBound(raws, regress, b)
    ensures a == b
  {
  }

  /** Trips do not affect each other: equal own histories give equal arrivals. */
  lemma TripsIndependent(regress: nat, calls: seq<Call>, other: seq<Call>, trip: string)
    requires Own(calls, trip) == Own(other, trip) != []
    ensures trip in Memory(regress, calls) && trip in Memory(regress, other)
    ensures Memory(regress, calls)[trip] == Memory(regress, other)[trip]
  {
    GuardClosedForm(regress, calls, trip);
    GuardClosedForm(regress, other, trip);
    BoundUnique(Own(calls, trip), regress, Memory(regress, calls)[trip], Memory(regress, other)[trip]);
  }

  /** How much earlier n calls may move an arrival. */
  function Regress(n: nat, regress: nat): nat {
    n * regress
  }

  lemma OneMoreRegress(n: nat, regress: nat)
    ensures Regress(n + 1, regress) == Regress(n, regress) + regress && Regress(0, regress) == 0
  {
  }

  lemma OneMoreCall(regress: nat, calls: seq<Call>, more: seq<Call>, c: Call, trip: string)
    ensures var last := Memory(regress, calls + more);
      Memory(regress, calls + (more + [c])) == last[c.trip := Guarded(last, regress, c)]
    ensures |Own(more + [c], trip)| == |Own(more, trip)| + if c.trip == trip then 1 else 0
    ensures Own([], trip) == []
  {
    var all := calls + (more + [c]);
    assert all[..|all| - 1] == calls + more && (more + [c])[..|more|] == more;
  }

  /** Between any two points of a run a trip's arrival moves earlier by at most the regress for
      each of its own calls in between, and never lags behind a raw arrival that is later. */
  lemma {:induction false} RegressIsBounded(regress: nat, calls: seq<Call>, more: seq<Call>, trip: string)
    requires trip in Memory(regress, calls)
    ensures trip in Memory(regress, calls + more)
    ensures Memory(regress, calls + more)[trip] >= Memory(regress, calls)[trip] - Regress(|Own(more, trip)|, regress)
    ensures more != [] && more[|more| - 1].trip == trip ==> Memory(regress, calls + more)[trip] >= more[|more| - 1].raw
  {
    hide Regress;
    OneMoreRegress(0, regress);
    if more == [] {
      assert calls + more == calls;
    } else {
      var before, c := more[..|more| - 1], more[|more| - 1];
      OneMoreCall(regress, calls, before, c, trip);
      hide Memory, Own;
      assert more == before + [c];
      RegressIsBounded(regress, calls, before, trip);
      OneMoreRegress(|Own(before, trip)|, regress);
    }
  }

  /** When every further raw arrival of the trip is r, the arrival glides to it: after n calls
      of its own it is the later of r and the start less n regresses, so it reaches r exactly
      when n regresses cover the distance. */
  lemma {:induction false} GuardConverges(regress: nat, calls: seq<Call>, more: seq<Call>, trip: string, r: int)
    requires trip in Memory(regress, calls) && forall c :: c in more && c.trip == trip ==> c.raw == r
    ensures trip in Memory(regress, calls + more)
    ensures var start, n := Memory(regress, calls)[trip], |Own(more, trip)|;
      Memory(regress, calls + more)[trip] == if n == 0 then start else Max(r, start - Regress(n, regress))
  {
    hide Regress;
    if more == [] {
      assert calls + more == calls;
    } else {
      var before, c := more[..|more| - 1], more[|more| - 1];
      assert c in more;
      OneMoreCall(regress, calls, before, c, trip);
      hide Memory, Own;
      assert more == before + [c];
      GuardConverges(regress, calls, before, trip, r);
      GlideStep(Memory(regress, calls)[trip], r, |Own(before, trip)|, regress);
    }
  }

  lemma GlideStep(start: int, r: int, n: nat, regress: nat)
    ensures Max(r, start - Regress(n + 1, regress)) == Max(r, (if n == 0 then start else Max(r, start - Regress(n, regress))) - regress)
  {
    OneMoreRegress(n, regress);
  }

  class EtaService {
    const guardMaxRegress: nat
    var lastETA: map<string, int>

    constructor (guardMaxRegress: int)
      ensures this.guardMaxRegress == if guardMaxRegress <= 0 then 5 else guardMaxRegress
      ensures lastETA == map[]
    {
      this.guardMaxRegress := if guardMaxRegress <= 0 then 5 else guardMaxRegress;
      lastETA := map[];
    }

    /** Returns the guarded arrival and whether it was clamped, which writes an audit row. */
    method ApplyMonotonicGuard(trip: string, newArrival: int, ghost calls: seq<Call>) returns (arrival: int, audited: bool)
      requires lastETA == Memory(guardMaxRegress * 60, calls)
      modifies this
      ensures lastETA == Memory(guardMaxRegress * 60, calls + [Call(trip, newArrival)])
      ensures trip in lastETA && arrival == lastETA[trip]
      ensures audited <==> arrival != newArrival
    {
      audited := false;
      assert (calls + [Call(trip, newArrival)])[..|calls|] == calls;
      if trip !in lastETA {
        lastETA := lastETA[trip := newArrival];
        return newArrival, false;
      }
      var maxRegress := guardMaxRegress * MINUTE;
      var earliestAllowed := lastETA[trip] - maxRegress;
      if newArrival < earliestAllowed {
        audited := true;
        lastETA := lastETA[trip := earliestAllowed];
        return earliestAllowed, true;
      }
      lastETA := lastETA[trip := newArrival];
      return newArrival, false;
    }
  }
}
