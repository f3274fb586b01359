/**
 * Meaning of the in-process cache: what the latest Set says, and how many calls a fixed-window
 * counter admits. The janitor's sweeps, at whatever moments, make no difference to either.
 */
module CacheModel {
  import opened Common

  newtype byte = x: int | 0 <= x < 256

  /** Times and durations are nanoseconds. */
  predicate Expired(expiresAt: nat, now: nat) {
    expiresAt != 0 && now > expiresAt
  }

  function EffectiveTtl(ttl: int, defaultTtl: nat): (t: nat)
    requires defaultTtl > 0
    ensures t > 0
  {
    if ttl <= 0 then defaultTtl else ttl
  }

  // ------------------------------------------------------------- items

  datatype Record = Record(bytes: seq<byte>, expiresAt: nat)

  type Store = map<string, Record>

  datatype Op = Set(key: string, bytes: seq<byte>, ttl: int, at: nat) | Delete(key: string) | Sweep(at: nat) | Close

  function Swept(store: Store, now: nat): Store {
    map k | k in store && !Expired(store[k].expiresAt, now) :: store[k]
  }

  function Apply(defaultTtl: nat, store: Store, op: Op): Store
    requires defaultTtl > 0
  {
    match op
    case Set(key, bytes, ttl, at) => store[key := Record(bytes, at + EffectiveTtl(ttl, defaultTtl))]
    case Delete(key) => store - {key}
    case Sweep(at) => Swept(store, at)
    case Close => map[]
  }

  function Play(defaultTtl: nat, ops: seq<Op>): Store
    requires defaultTtl > 0
  {
    if ops == [] then map[] else Apply(defaultTtl, Play(defaultTtl, ops[..|ops| - 1]), ops[|ops| - 1])
  }

  function Lookup(store: Store, key: string, now: nat): Option<seq<byte>> {
    if key in store && !Expired(store[key].expiresAt, now) then Some(store[key].bytes) else None
  }

  /** The latest Set of the key, unless a Delete of it or a Close came after. Sweeps do not exist here. */
  function Latest(defaultTtl: nat, ops: seq<Op>, key: string): Option<Record>
    requires defaultTtl > 0
  {
    if ops == [] then None else
      match ops[|ops| - 1]
      case Close => None
      case Set(k, bytes, ttl, at) =>
        if k == key then Some(Record(bytes, at + EffectiveTtl(ttl, defaultTtl))) else Latest(defaultTtl, ops[..|ops| - 1], key)
      case Delete(k) => if k == key then None else Latest(defaultTtl, ops[..|ops| - 1], key)
      case Sweep(_) => Latest(defaultTtl, ops[..|ops| - 1], key)
  }

  /** No sweep saw a clock later than now. */
  predicate SweptBy(ops: seq<Op>, now: nat) {
    forall k :: 0 <= k < |ops| ==> (ops[k].Sweep? ==> ops[k].at <= now)
  }

  lemma {:induction false} StoreAgreesWithHistory(defaultTtl: nat, ops: seq<Op>, key: string, now: nat)
    requires defaultTtl > 0 && SweptBy(ops, now)
    ensures var store, latest := Play(defaultTtl, ops), Latest(defaultTtl, ops, key);
      if key in store then latest == Some(store[key]) else latest.Some? ==> Expired(latest.value.expiresAt, now)
  {
    if ops != [] {
      var before, op := ops[..|ops| - 1], ops[|ops| - 1];
      assert op == ops[|ops| - 1];
      StoreAgreesWithHistory(defaultTtl, before, key, now);
    }
  }

  /** A lookup answers the latest Set not followed by a Delete and not past its expiry, for
      every schedule of janitor sweeps. */
  lemma JanitorIsInvisible(defaultTtl: nat, ops: seq<Op>, key: string, now: nat)
    requires defaultTtl > 0 && SweptBy(ops, now)
    ensures Lookup(Play(defaultTtl, ops), key, now) ==
      match Latest(defaultTtl, ops, key)
      case Some(r) => if Expired(r.expiresAt, now) then None else Some(r.bytes)
      case None => None
  {
    StoreAgreesWithHistory(defaultTtl, ops, key, now);
  }

  /** Operations that leave a key's item alone: sweeps, and whatever happens to other keys. */
  predicate Elsewhere(ops: seq<Op>, key: string) {
    forall k :: 0 <= k < |ops| ==> ops[k].Sweep? || ((ops[k].Set? || ops[k].Delete?) && ops[k].key != key)
  }

  lemma {:induction false} LatestSkips(defaultTtl: nat, ops: seq<Op>, rest: seq<Op>, key: string)
    requires defaultTtl > 0 && Elsewhere(rest, key)
    ensures Latest(defaultTtl, ops + rest, key) == Latest(defaultTtl, ops, key)
  {
    if rest == [] {
      assert ops + rest == ops;
    } else {
      assert (ops + rest)[..|ops + rest| - 1] == ops + rest[..|rest| - 1];
      LatestSkips(defaultTtl, ops, rest[..|rest| - 1], key);
    }
  }

  /** A value set lives for its ttl, or the default when the ttl is not above zero, up to and including its last instant. */
  lemma SetLivesForItsTtl(defaultTtl: nat, ops: seq<Op>, key: string, bytes: seq<byte>, ttl: int, at: nat, rest: seq<Op>, now: nat)
    requires defaultTtl > 0 && Elsewhere(rest, key) && SweptBy(ops + [Set(key, bytes, ttl, at)] + rest, now)
    ensures Lookup(Play(defaultTtl, ops + [Set(key, bytes, ttl, at)] + rest), key, now) ==
      if now <= at + (if ttl > 0 then ttl else defaultTtl) then Some(bytes) else None
  {
    var set_ := ops + [Set(key, bytes, ttl, at)];
    assert set_[..|set_| - 1] == ops;
    LatestSkips(defaultTtl, set_, rest, key);
    JanitorIsInvisible(defaultTtl, set_ + rest, key, now);
  }

  // ------------------------------------------------------------- fixed-window counters

  datatype Counter = Counter(n: nat, expiresAt: nat)

  type Counters = map<string, Counter>

  datatype CountOp = Hit(key: string, ttl: int, at: nat) | Purge(at: nat)

  function Purged(counters: Counters, now: nat): Counters {
    map k | k in counters && !Expired(counters[k].expiresAt, now) :: counters[k]
  }

  /** The counter a hit leaves behind; its n is the value returned. */
  function Bumped(defaultTtl: nat, counters: Counters, key: string, ttl: int, now: nat): Counter
    requires defaultTtl > 0
  {
    if key !in counters || Expired(counters[key].expiresAt, now)
    then Counter(1, now + EffectiveTtl(ttl, defaultTtl))
    else counters[key].(n := counters[key].n + 1)
  }

  function Count(defaultTtl: nat, counters: Counters, op: CountOp): Counters
    requires defaultTtl > 0
  {
    match op
    case Hit(key, ttl, at) => counters[key := Bumped(defaultTtl, counters, key, ttl, at)]
    case Purge(at) => Purged(counters, at)
  }

  function Counts(defaultTtl: nat, ops: seq<CountOp>): Counters
    requires defaultTtl > 0
  {
    if ops == [] then map[] else Count(defaultTtl, Counts(defaultTtl, ops[..|ops| - 1]), ops[|ops| - 1])
  }

  /** How many hits of the key in [from, to] were answered with at most `limit`. */
  function Admitted(defaultTtl: nat, ops: seq<CountOp>, key: string, limit: nat, from: nat, to: nat): nat
    requires defaultTtl > 0
  {
    if ops == [] then 0 else
      var op := ops[|ops| - 1];
      Admitted(defaultTtl, ops[..|ops| - 1], key, limit, from, to) +
      if op.Hit? && op.key == key && from <= op.at <= to && Counts(defaultTtl, ops)[key].n <= limit then 1 else 0
  }

  /** A hit without a live counter opens a window of its ttl, or of the default when that is not above
      zero; any other hit adds one to the counter and leaves its end. */
  lemma HitCounts(defaultTtl: nat, counters: Counters, key: string, ttl: int, now: nat)
    requires defaultTtl > 0
    ensures var next := Count(defaultTtl, counters, Hit(key, ttl, now));
      && key in next
      && next[key] == (if key in counters && (counters[key].expiresAt == 0 || now <= counters[key].expiresAt)
                       then Counter(counters[key].n + 1, counters[key].expiresAt)
                       else Counter(1, if ttl > 0 then now + ttl else now + defaultTtl))
  {
  }

  /** The clock never goes back, and every hit of the key asks for the same effective ttl. */
  predicate Steady(defaultTtl: nat, ops: seq<CountOp>, key: string, ttl: nat)
    requires defaultTtl > 0
  {
    && (forall i, j :: 0 <= i < j < |ops| ==> ops[i].at <= ops[j].at)
    && (forall i :: 0 <= i < |ops| ==> (ops[i].Hit? && ops[i].key == key ==> EffectiveTtl(ops[i].ttl, defaultTtl) == ttl))
  }

  /** The key's current window: when it opened and how many hits it has had. No purges here. */
  datatype Window = Window(start: nat, n: nat)

  function CurrentWindow(ops: seq<CountOp>, key: string, ttl: nat): Option<Window> {
    if ops == [] then None else
      var before := CurrentWindow(ops[..|ops| - 1], key, ttl);
      var op := ops[|ops| - 1];
      if !(op.Hit? && op.key == key) then before
      else if before.None? || op.at > before.value.start + ttl then Some(Window(op.at, 1))
      else Some(Window(before.value.start, before.value.n + 1))
  }

  /** The stored counter is the current window's, or it was purged after the window ended. */
  lemma {:induction false} CounterIsWindow(defaultTtl: nat, ops: seq<CountOp>, key: string, ttl: nat)
    requires defaultTtl > 0 && ttl > 0 && Steady(defaultTtl, ops, key, ttl)
    ensures var counters, w := Counts(defaultTtl, ops), CurrentWindow(ops, key, ttl);
      && (w.None? ==> key !in counters)
      && (w.Some? ==> if key in counters then counters[key] == Counter(w.value.n, w.value.start + ttl)
                      else ops[|ops| - 1].at > w.value.start + ttl)
      && (w.Some? ==> w.value.start <= ops[|ops| - 1].at && w.value.n >= 1)
  {
    if ops != [] {
      var before, op := ops[..|ops| - 1], ops[|ops| - 1];
      assert forall i :: 0 <= i < |before| ==> before[i] == ops[i];
      CounterIsWindow(defaultTtl, before, key, ttl);
      if before != [] { assert before[|before| - 1].at <= op.at; }
    }
  }

  /** What the windows allow to be admitted in [from, from + ttl]: a window open before the
      interval spent its first hit outside it, and only one window can open inside it. */
  function Allowance(w: Option<Window>, limit: nat, from: nat, ttl: nat): nat {
    if w.None? || limit == 0 then 0
    else if w.value.start < from then Min(w.value.n, limit) - Min(1, Min(w.value.n, limit))
    else if w.value.start <= from + ttl then limit - 1 + Min(w.value.n, limit)
    else 2 * limit - 1
  }

  lemma {:induction false} AdmittedWithinAllowance(defaultTtl: nat, ops: seq<CountOp>, key: string, ttl: nat, limit: nat, from: nat)
    requires defaultTtl > 0 && ttl > 0 && Steady(defaultTtl, ops, key, ttl)
    ensures Admitted(defaultTtl, ops, key, limit, from, from + ttl) <= Allowance(CurrentWindow(ops, key, ttl), limit, from, ttl)
    ensures ops != [] && ops[|ops| - 1].at < from ==> Admitted(defaultTtl, ops, key, limit, from, from + ttl) == 0
  {
    if ops != [] {
      var before, op := ops[..|ops| - 1], ops[|ops| - 1];
      assert forall i :: 0 <= i < |before| ==> before[i] == ops[i];
      AdmittedWithinAllowance(defaultTtl, before, key, ttl, limit, from);
      CounterIsWindow(defaultTtl, before, key, ttl);
      CounterIsWindow(defaultTtl, ops, key, ttl);
      hide Counts, Steady;
      if before != [] { assert before[|before| - 1].at <= op.at; }
    }
  }

  /** The real limit of a fixed window: in any closed interval of one ttl at most 2L - 1 hits
      are answered with a value up to L, over every run with a steady clock, with other keys
      and purges interleaved at will. */
  lemma FixedWindowLimit(defaultTtl: nat, ops: seq<CountOp>, key: string, ttl: nat, limit: nat, from: nat)
    requires defaultTtl > 0 && ttl > 0 && limit > 0 && Steady(defaultTtl, ops, key, ttl)
    ensures Admitted(defaultTtl, ops, key, limit, from, from + ttl) <= 2 * limit - 1
  {
    AdmittedWithinAllowance(defaultTtl, ops, key, ttl, limit, from);
  }

  // ------------------------------------------------------------- the limit is attained

  /** One hit opening a window, i more at its last moment, and j just after it. */
  function Burst(key: string, ttl: nat, i: nat, j: nat): seq<CountOp> {
    [Hit(key, ttl, 1)] + seq(i, _ => Hit(key, ttl, 1 + ttl)) + seq(j, _ => Hit(key, ttl, 2 + ttl))
  }

  lemma BurstLast(key: string, ttl: nat, i: nat, j: nat)
    requires i + j > 0
    ensures var ops := Burst(key, ttl, i, j);
      && ops[..|ops| - 1] == (if j > 0 then Burst(key, ttl, i, j - 1) else Burst(key, ttl, i - 1, 0))
      && ops[|ops| - 1] == Hit(key, ttl, if j > 0 then 2 + ttl else 1 + ttl)
  {
  }

  lemma {:induction false} BurstAdmits(key: string, ttl: nat, limit: nat, i: nat, j: nat)
    requires ttl > 0 && i < limit && j <= limit
    ensures var ops := Burst(key, ttl, i, j);
      && Counts(ttl, ops) == map[key := if j == 0 then Counter(1 + i, 1 + ttl) else Counter(j, 2 + ttl + ttl)]
      && Admitted(ttl, ops, key, limit, 2, 2 + ttl) == i + j
    decreases i + j
  {
    var ops := Burst(key, ttl, i, j);
    if i + j == 0 {
      assert ops == [Hit(key, ttl, 1)] && ops[..0] == [];
      assert Counts(ttl, []) == map[];
    } else {
      BurstLast(key, ttl, i, j);
      BurstAdmits(key, ttl, limit, if j > 0 then i else i - 1, if j > 0 then j - 1 else 0);
    }
  }

  lemma BurstSteady(key: string, ttl: nat, i: nat, j: nat)
    requires ttl > 0
    ensures Steady(ttl, Burst(key, ttl, i, j), key, ttl)
  {
  }

  /** The limit cannot be improved: for every limit and ttl some steady run admits 2L - 1. */
  lemma FixedWindowLimitIsAttained(key: string, ttl: nat, limit: nat)
    requires ttl > 0 && limit > 0
    ensures Steady(ttl, Burst(key, ttl, limit - 1, limit), key, ttl)
    ensures Admitted(ttl, Burst(key, ttl, limit - 1, limit), key, limit, 2, 2 + ttl) == 2 * limit - 1
  {
    BurstSteady(key, ttl, limit - 1, limit);
    BurstAdmits(key, ttl, limit, limit - 1, limit);
  }
}
