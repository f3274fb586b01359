/**
 * The feature-flag registry: how a flag is resolved, and how the per-tenant cache in front of
 * the flag table behaves when readers, who fetch outside the lock, race with writers.
 */
module FeatureFlags {
  import opened Common

  // ------------------------------------------------------------- resolution

  datatype Tier = Core | Addon

  datatype Feature = Feature(key: string, tier: Tier, envFlag: string, envDefaultOn: bool)

  const CATALOG := [
    Feature("telemetry", Addon, "TELEMETRY_ENABLED", true),
    Feature("geofences", Addon, "TELEMETRY_ENABLED", true),
    Feature("fuel_audit", Addon, "TELEMETRY_ENABLED", true),
    Feature("share_links", Core, "", false),
    Feature("customer_portal", Core, "", false),
    Feature("fastag", Addon, "INTEGRATION_FASTAG_ENABLED", false),
    Feature("ewaybill", Core, "INTEGRATION_EWAYBILL_ENABLED", false),
    Feature("gst_einvoice", Addon, "INTEGRATION_GSTN_ENABLED", false),
    Feature("accounting_sync", Addon, "INTEGRATION_ACCOUNTING_ENABLED", false),
    Feature("razorpay", Core, "", false),
    Feature("settlements", Core, "", false),
    Feature("scorecard", Addon, "TELEMETRY_ENABLED", true),
    Feature("pnl", Addon, "", false),
    Feature("experiments", Core, "", false),
    Feature("agent", Addon, "AGENT_ENABLED", false),
    Feature("rag", Addon, "RAG_ENABLED", false),
    Feature("founder", Core, "", false),
    Feature("pwa", Core, "PWA_ENABLED", false)]

  type Flags = map<string, bool>

  /** The first catalog entry with the key. */
  function ByKey(catalog: seq<Feature>, key: string): Option<Feature> {
    if catalog == [] then None
    else if catalog[0].key == key then Some(catalog[0])
    else ByKey(catalog[1..], key)
  }

  function EnvState(lookup: string -> string, f: Feature): Option<bool> {
    if f.envFlag == "" then None
    else if lookup(f.envFlag) in {"true", "1"} then Some(true)
    else if lookup(f.envFlag) in {"false", "0"} then Some(false)
    else if f.envDefaultOn then Some(true)
    else None
  }

  /** Explicit row first, then the environment, then the tier. */
  function Resolve(flags: Flags, lookup: string -> string, f: Feature): bool {
    if f.key in flags then flags[f.key]
    else if EnvState(lookup, f).Some? then EnvState(lookup, f).value
    else f.tier == Core
  }

  function Enabled(catalog: seq<Feature>, flags: Flags, lookup: string -> string, key: string): bool {
    match ByKey(catalog, key)
    case None => false
    case Some(f) => Resolve(flags, lookup, f)
  }

  ghost predicate DistinctKeys(catalog: seq<Feature>) {
    forall i, j :: 0 <= i < j < |catalog| ==> catalog[i].key != catalog[j].key
  }

  lemma {:induction false} ByKeyFinds(catalog: seq<Feature>, i: nat)
    requires DistinctKeys(catalog) && i < |catalog|
    ensures ByKey(catalog, catalog[i].key) == Some(catalog[i])
  {
    if i > 0 {
      assert catalog[0].key != catalog[i].key;
      ByKeyFinds(catalog[1..], i - 1);
    }
  }

  /** Without an explicit row a feature is on when its switch reads "true" or "1" and off when it reads
      "false" or "0"; otherwise it is on exactly when it has a switch and defaults on, or is a core feature. */
  lemma EnabledWithoutRow(catalog: seq<Feature>, i: nat, flags: Flags, lookup: string -> string)
    requires DistinctKeys(catalog) && i < |catalog| && catalog[i].key !in flags
    ensures var f := catalog[i]; var reading, on := lookup(f.envFlag), Enabled(catalog, flags, lookup, f.key);
      if f.envFlag != "" && (reading == "true" || reading == "1") then on
      else if f.envFlag != "" && (reading == "false" || reading == "0") then !on
      else on <==> (f.envFlag != "" && f.envDefaultOn) || f.tier == Core
  {
    ByKeyFinds(catalog, i);
  }

  /** An explicit row of a catalog entry decides, whatever the environment; an unknown key is off, whatever rows there are. */
  lemma EnabledWithRow(catalog: seq<Feature>, i: nat, flags: Flags, lookup: string -> string, unknown: string)
    requires DistinctKeys(catalog) && i < |catalog| && catalog[i].key in flags
    requires forall j :: 0 <= j < |catalog| ==> catalog[j].key != unknown
    ensures Enabled(catalog, flags, lookup, catalog[i].key) == flags[catalog[i].key]
    ensures !Enabled(catalog, flags, lookup, unknown)
  {
    ByKeyFinds(catalog, i);
    ByKeyMisses(catalog, unknown);
  }

  lemma {:induction false} ByKeyMisses(catalog: seq<Feature>, key: string)
    requires forall j :: 0 <= j < |catalog| ==> catalog[j].key != key
    ensures ByKey(catalog, key).None?
  {
    if catalog != [] { ByKeyMisses(catalog[1..], key); }
  }

  /** Granting or revoking a feature decides that feature for good and leaves every other as it was. */
  lemma {:induction false} GrantDecidesOnlyItsFeature(catalog: seq<Feature>, flags: Flags, lookup: string -> string, key: string, on: bool, other: string)
    ensures Enabled(catalog, flags[key := on], lookup, other) ==
      if other == key then on && ByKey(catalog, key).Some? else Enabled(catalog, flags, lookup, other)
  {
    ByKeyHasKey(catalog, other);
  }

  /** The map holds the row that sets the key. */
  predicate Carries(flags: Flags, key: string, on: bool) {
    key in flags && flags[key] == on
  }

  lemma CarriedKeyDecides(catalog: seq<Feature>, flags: Flags, lookup: string -> string, key: string, on: bool)
    requires ByKey(catalog, key).Some? && Carries(flags, key, on)
    ensures Enabled(catalog, flags, lookup, key) == on
  {
    ByKeyHasKey(catalog, key);
  }

  lemma {:induction false} ByKeyHasKey(catalog: seq<Feature>, key: string)
    ensures ByKey(catalog, key).Some? ==> ByKey(catalog, key).value.key == key
  {
    if catalog != [] { ByKeyHasKey(catalog[1..], key); }
  }

  /** The full catalog resolved for one tenant agrees entry by entry with Enabled. */
  method Snapshot(catalog: seq<Feature>, flags: Flags, lookup: string -> string) returns (out: seq<(Feature, bool)>)
    requires DistinctKeys(catalog)
    ensures |out| == |catalog|
    ensures forall i :: 0 <= i < |catalog| ==> out[i] == (catalog[i], Enabled(catalog, flags, lookup, catalog[i].key))
  {
    out := [];
    for n := 0 to |catalog|
      invariant |out| == n
      invariant forall i :: 0 <= i < n ==> out[i] == (catalog[i], Enabled(catalog, flags, lookup, catalog[i].key))
    {
      var f := catalog[n];
      var enabled: bool;
      if f.key in flags {
        enabled := flags[f.key];
      } else {
        var decided := EnvState(lookup, f);
        enabled := if decided.Some? then decided.value else f.tier == Core;
      }
      ByKeyFinds(catalog, n);
      out := out + [(f, enabled)];
    }
  }

  /** Length and first two letters tell the catalog's keys apart. */
  function Digest(key: string): nat {
    if |key| < 2 then 0 else 0x1_0000_0000 * |key| + 0x1_0000 * (key[0] as nat) + key[1] as nat
  }

  lemma CatalogIsDistinct()
    ensures DistinctKeys(CATALOG)
  {
    assert Digest(CATALOG[0].key) == 0x900740065;
    assert Digest(CATALOG[1].key) == 0x900670065;
    assert Digest(CATALOG[2].key) == 0xa00660075;
    assert Digest(CATALOG[3].key) == 0xb00730068;
    assert Digest(CATALOG[4].key) == 0xf00630075;
    assert Digest(CATALOG[5].key) == 0x600660061;
    assert Digest(CATALOG[6].key) == 0x800650077;
    assert Digest(CATALOG[7].key) == 0xc00670073;
    assert Digest(CATALOG[8].key) == 0xf00610063;
    assert Digest(CATALOG[9].key) == 0x800720061;
    assert Digest(CATALOG[10].key) == 0xb00730065;
    assert Digest(CATALOG[11].key) == 0x900730063;
    assert Digest(CATALOG[12].key) == 0x30070006e;
    assert Digest(CATALOG[13].key) == 0xb00650078;
    assert Digest(CATALOG[14].key) == 0x500610067;
    assert Digest(CATALOG[15].key) == 0x300720061;
    assert Digest(CATALOG[16].key) == 0x70066006f;
    assert Digest(CATALOG[17].key) == 0x300700077;
    hide Digest, CATALOG;
    forall i, j | 0 <= i < j < 18 ensures Digest(CATALOG[i].key) != Digest(CATALOG[j].key) {}
  }

  /** With an empty environment and no rows the core features are on, and of the add-ons those that
      come with telemetry: the first three and the driver scorecard. */
  lemma CatalogDefaults(i: nat)
    requires i < 18
    ensures |CATALOG| == 18
    ensures Enabled(CATALOG, map[], _ => "", CATALOG[i].key) <==> i in {0, 1, 2, 3, 4, 6, 9, 10, 11, 13, 16, 17}
  {
    CatalogIsDistinct();
    hide DistinctKeys, ByKey, Enabled;
    EnabledWithoutRow(CATALOG, i, map[], _ => "");
  }

  // ------------------------------------------------------------- the cache

  const CACHE_TTL: nat := 60

  datatype CachedOrg = CachedOrg(flags: Flags, fetched: nat)

  type Cache = map<string, CachedOrg>

  function Probe(cache: Cache, tenant: string, now: nat): Option<Flags> {
    if tenant in cache && now - cache[tenant].fetched < CACHE_TTL then Some(cache[tenant].flags) else None
  }

  function Stored(cache: Cache, tenant: string, flags: Flags, now: nat): Cache {
    cache[tenant := CachedOrg(flags, now)]
  }

  function Invalidated(cache: Cache, tenant: string): Cache {
    cache - {tenant}
  }

  datatype SetOutcome = Done | UnknownFeature | WriteFailed

  /** The registry object over its table of explicit rows. */
  class Registry {
    var table: map<string, Flags>
    var cache: Cache

    constructor ()
      ensures cache == map[] && table == map[]
    {
      cache, table := map[], map[];
    }

    function Rows(tenant: string): Flags
      reads this
    {
      if tenant in table then table[tenant] else map[]
    }

    /** Answers from a cache entry under its ttl and refills it otherwise. `lost` are the rows the
        query did not read, all of them when it failed; what it did read is kept all the same. */
    method FlagsFor(tenant: string, now: nat, lost: set<string>, later: nat) returns (flags: Flags)
      requires now <= later
      modifies this`cache
      ensures var hit, answer := Probe(old(cache), tenant, now), Rows(tenant) - lost;
        && flags == (if hit.Some? then hit.value else answer)
        && cache == (if hit.Some? then old(cache) else Stored(old(cache), tenant, answer, later))
    {
      if tenant in cache && now - cache[tenant].fetched < CACHE_TTL {
        return cache[tenant].flags;
      }
      flags := Rows(tenant) - lost;
      cache := cache[tenant := CachedOrg(flags, later)];
    }

    /** Writes the row and drops the tenant's cache entry; an unknown key or a failed write changes nothing. */
    method Set(tenant: string, key: string, on: bool, writes: bool) returns (outcome: SetOutcome)
      modifies this
      ensures outcome == if ByKey(CATALOG, key).None? then UnknownFeature else if writes then Done else WriteFailed
      ensures outcome != Done ==> table == old(table) && cache == old(cache)
      ensures outcome == Done ==> table == old(table)[tenant := old(Rows(tenant))[key := on]] && cache == Invalidated(old(cache), tenant)
    {
      if ByKey(CATALOG, key).None? {
        return UnknownFeature;
      }
      if !writes {
        return WriteFailed;
      }
      table := table[tenant := Rows(tenant)[key := on]];
      cache := cache - {tenant};
      outcome := Done;
    }

    /** With nobody else at work, a committed Set decides the very next lookup if its query reads
        that row; if not, environment and tier decide as if it had never been set. */
    method SetThenLookUp(tenant: string, key: string, on: bool, now: nat, lost: set<string>, lookup: string -> string)
      returns (outcome: SetOutcome, enabled: bool)
      modifies this
      ensures outcome == Done ==> enabled == if key in lost then Enabled(CATALOG, map[], lookup, key) else on
    {
      outcome := Set(tenant, key, on, true);
      var flags := FlagsFor(tenant, now, lost, now);
      enabled := Enabled(CATALOG, flags, lookup, key);
      ByKeyHasKey(CATALOG, key);
      if outcome == Done && key !in lost { CarriedKeyDecides(CATALOG, flags, lookup, key, on); }
    }
  }

  // ------------------------------------------------------------- readers and writers as steps

  /** One content of a tenant's rows and the time it was written. */
  datatype Version = Version(flags: Flags, at: nat)

  /** Where a flag map came from: the version current when the query ran, when that was, and
      the version's rows the query did not read. */
  datatype Origin = Origin(version: nat, at: nat, lost: set<string>)

  /** A reader has missed the cache, or holds its query's answer, or has returned a map that was stored at some time. */
  datatype Reader =
    | Missed(tenant: string)
    | Holding(tenant: string, flags: Flags, origin: Origin)
    | Returned(tenant: string, flags: Flags, origin: Origin, storedAt: nat, at: nat)

  datatype System = System(
    db: map<string, seq<Version>>, cache: Cache, origins: map<string, Origin>,
    readers: map<nat, Reader>, clock: nat)

  datatype Action =
    | Begin(r: nat, tenant: string, now: nat)
    | Query(r: nat, lost: set<string>, now: nat)
    | Store(r: nat, now: nat)
    | Write(tenant: string, key: string, on: bool, now: nat)
    | Invalidate(tenant: string, now: nat)

  function Versions(sys: System, tenant: string): (v: seq<Version>)
    ensures v != []
  {
    if tenant in sys.db && sys.db[tenant] != [] then sys.db[tenant] else [Version(map[], 0)]
  }

  function Content(sys: System, tenant: string): Flags {
    var v := Versions(sys, tenant);
    v[|v| - 1].flags
  }

  /** A query may lose any rows: all when it fails, the rest when it breaks off, one that does not scan. */
  predicate Legal(sys: System, a: Action) {
    sys.clock <= a.now &&
    match a
    case Begin(r, _, _) => r !in sys.readers
    case Query(r, _, _) => r in sys.readers && sys.readers[r].Missed?
    case Store(r, _) => r in sys.readers && sys.readers[r].Holding?
    case Write(_, _, _, _) => true
    case Invalidate(_, _) => true
  }

  function Apply(sys: System, a: Action): System
    requires Legal(sys, a)
  {
    var next := sys.(clock := a.now);
    match a
    case Begin(r, tenant, now) =>
      var hit := Probe(sys.cache, tenant, now);
      next.(readers := sys.readers[r :=
        if hit.Some? && tenant in sys.origins then Returned(tenant, hit.value, sys.origins[tenant], sys.cache[tenant].fetched, now)
        else Missed(tenant)])
    case Query(r, lost, now) =>
      var tenant := sys.readers[r].tenant;
      var content := Content(sys, tenant);
      next.(readers := sys.readers[r :=
        Holding(tenant, content - lost, Origin(|Versions(sys, tenant)| - 1, now, lost * content.Keys))])
    case Store(r, now) =>
      var h := sys.readers[r];
      next.(cache := Stored(sys.cache, h.tenant, h.flags, now), origins := sys.origins[h.tenant := h.origin],
            readers := sys.readers[r := Returned(h.tenant, h.flags, h.origin, now, now)])
    case Write(tenant, key, on, now) =>
      next.(db := sys.db[tenant := Versions(sys, tenant) + [Version(Content(sys, tenant)[key := on], now)]])
    case Invalidate(tenant, now) => next.(cache := Invalidated(sys.cache, tenant))
  }

  ghost predicate LegalPlay(sys: System, actions: seq<Action>)
    decreases |actions|, 0
  {
    actions == [] || (LegalPlay(sys, actions[..|actions| - 1]) && Legal(Play(sys, actions[..|actions| - 1]), actions[|actions| - 1]))
  }

  ghost function Play(sys: System, actions: seq<Action>): System
    requires LegalPlay(sys, actions)
    decreases |actions|, 1
  {
    if actions == [] then sys else Apply(Play(sys, actions[..|actions| - 1]), actions[|actions| - 1])
  }

  // ------------------------------------------------------------- bounded staleness

  /** The version was the tenant's current content at the time of the query. */
  predicate CurrentThen(sys: System, tenant: string, o: Origin) {
    var v := Versions(sys, tenant);
    o.version < |v| && v[o.version].at <= o.at && (o.version + 1 < |v| ==> o.at <= v[o.version + 1].at)
  }

  /** The map is its origin's version less the rows its query lost. */
  predicate Genuine(sys: System, tenant: string, flags: Flags, o: Origin) {
    CurrentThen(sys, tenant, o) &&
    var content := Versions(sys, tenant)[o.version].flags;
    o.lost <= content.Keys && flags == content - o.lost
  }

  predicate GenuineReader(sys: System, r: Reader) {
    match r
    case Missed(_) => true
    case Holding(t, flags, o) => Genuine(sys, t, flags, o) && o.at <= sys.clock
    case Returned(t, flags, o, stored, at) =>
      Genuine(sys, t, flags, o) && o.at <= stored <= at <= sys.clock && at - stored < CACHE_TTL
  }

  predicate GenuineEntry(sys: System, t: string)
    requires t in sys.cache
  {
    t in sys.origins && Genuine(sys, t, sys.cache[t].flags, sys.origins[t])
    && sys.origins[t].at <= sys.cache[t].fetched <= sys.clock
  }

  ghost predicate Sound(sys: System) {
    && (forall t :: Versions(sys, t)[|Versions(sys, t)| - 1].at <= sys.clock)
    && (forall t :: t in sys.cache ==> GenuineEntry(sys, t))
    && (forall r :: r in sys.readers ==> GenuineReader(sys, sys.readers[r]))
  }

  /** A registry just built over a table written earlier: nothing cached, nobody reading. */
  lemma StartIsSound(sys: System)
    requires sys.cache == map[] && sys.readers == map[]
    requires forall t :: t in sys.db && sys.db[t] != [] ==> sys.db[t][|sys.db[t]| - 1].at <= sys.clock
    ensures Sound(sys)
  {
  }

  lemma GenuineKept(sys: System, a: Action, tenant: string, flags: Flags, o: Origin)
    requires Sound(sys) && Legal(sys, a) && Genuine(sys, tenant, flags, o) && o.at <= sys.clock
    ensures Genuine(Apply(sys, a), tenant, flags, o)
  {
    hide Probe, Stored, Invalidated;
  }

  lemma StepKeepsSound(sys: System, a: Action)
    requires Sound(sys) && Legal(sys, a)
    ensures Sound(Apply(sys, a))
  {
    hide Genuine;
    var next := Apply(sys, a);
    forall t ensures Versions(next, t)[|Versions(next, t)| - 1].at <= next.clock {
      assert Versions(sys, t)[|Versions(sys, t)| - 1].at <= sys.clock;
    }
    forall t | t in next.cache ensures GenuineEntry(next, t) {
      if t in sys.cache { GenuineKept(sys, a, t, sys.cache[t].flags, sys.origins[t]); }
      StoredIsGenuine(sys, a);
    }
    forall r | r in next.readers ensures GenuineReader(next, next.readers[r]) {
      if r in sys.readers && next.readers[r] == sys.readers[r] {
        if !sys.readers[r].Missed? { GenuineKept(sys, a, sys.readers[r].tenant, sys.readers[r].flags, sys.readers[r].origin); }
      } else {
        MovedReaderGenuine(sys, a, r);
      }
    }
  }

  lemma StoredIsGenuine(sys: System, a: Action)
    requires Sound(sys) && Legal(sys, a)
    ensures a.Store? ==> Genuine(Apply(sys, a), sys.readers[a.r].tenant, sys.readers[a.r].flags, sys.readers[a.r].origin)
  {
    if a.Store? {
      var h := sys.readers[a.r];
      assert GenuineReader(sys, h);
      GenuineKept(sys, a, h.tenant, h.flags, h.origin);
    }
  }

  lemma MovedReaderGenuine(sys: System, a: Action, r: nat)
    requires Sound(sys) && Legal(sys, a) && r in Apply(sys, a).readers
    requires r !in sys.readers || Apply(sys, a).readers[r] != sys.readers[r]
    ensures GenuineReader(Apply(sys, a), Apply(sys, a).readers[r])
  {
    match a
    case Begin(_, tenant, now) =>
      if Probe(sys.cache, tenant, now).Some? {
        assert GenuineEntry(sys, tenant);
        GenuineKept(sys, a, tenant, sys.cache[tenant].flags, sys.origins[tenant]);
      }
    case Query(_, _, _) =>
    case Store(_, _) => StoredIsGenuine(sys, a); assert GenuineReader(sys, sys.readers[r]);
    case _ =>
  }

  /** What the table held in the version a map was read from. */
  function OriginContent(sys: System, ret: Reader): Flags
    requires ret.Returned? && CurrentThen(sys, ret.tenant, ret.origin)
  {
    Versions(sys, ret.tenant)[ret.origin.version].flags
  }

  /** Bounded staleness. Under every interleaving of readers, writers and invalidations, each
      map returned is the content of one version of the table, current when its query ran, less
      the rows that query lost: exactly that content if and only if it lost none. And the query ran
      less than the ttl plus its own query-to-store delay before. */
  lemma {:induction false} StalenessIsBounded(sys: System, actions: seq<Action>, r: nat)
    requires Sound(sys) && LegalPlay(sys, actions)
    ensures var end := Play(sys, actions);
      && Sound(end)
      && (r in end.readers && end.readers[r].Returned? ==>
            var ret := end.readers[r];
            && CurrentThen(end, ret.tenant, ret.origin)
            && ret.flags == OriginContent(end, ret) - ret.origin.lost
            && (ret.flags == OriginContent(end, ret) <==> ret.origin.lost == {})
            && ret.at - ret.origin.at < 60 + (ret.storedAt - ret.origin.at))
  {
    hide Apply, Legal, GenuineEntry, Genuine;
    if actions != [] {
      StalenessIsBounded(sys, actions[..|actions| - 1], r);
      StepKeepsSound(Play(sys, actions[..|actions| - 1]), actions[|actions| - 1]);
    }
    var end := Play(sys, actions);
    if r in end.readers && end.readers[r].Returned? {
      assert GenuineReader(end, end.readers[r]);
      LessNothing(end, end.readers[r].tenant, end.readers[r].flags, end.readers[r].origin);
    }
  }

  lemma LessNothing(sys: System, tenant: string, flags: Flags, o: Origin)
    requires Genuine(sys, tenant, flags, o)
    ensures CurrentThen(sys, tenant, o)
    ensures var content := Versions(sys, tenant)[o.version].flags;
      flags == content - o.lost && (flags == content <==> o.lost == {})
  {
    var content := Versions(sys, tenant)[o.version].flags;
    if o.lost != {} {
      var k :| k in o.lost;
      assert k in content && k !in flags;
    }
  }

  /** No query of the run loses a row. */
  predicate CompleteQueries(actions: seq<Action>) {
    forall i :: 0 <= i < |actions| ==> (actions[i].Query? ==> actions[i].lost == {})
  }

  ghost predicate NothingLost(sys: System) {
    && (forall t :: t in sys.origins ==> sys.origins[t].lost == {})
    && (forall r :: r in sys.readers && !sys.readers[r].Missed? ==> sys.readers[r].origin.lost == {})
  }

  /** As long as queries read every row, each map returned is exactly the database content at its query. */
  lemma {:induction false} CompleteQueriesAnswerExactly(sys: System, actions: seq<Action>, r: nat)
    requires Sound(sys) && NothingLost(sys) && LegalPlay(sys, actions) && CompleteQueries(actions)
    ensures var end := Play(sys, actions);
      && NothingLost(end)
      && (r in end.readers && end.readers[r].Returned? ==>
            var ret := end.readers[r];
            CurrentThen(end, ret.tenant, ret.origin) && ret.flags == OriginContent(end, ret))
  {
    hide Apply, Legal, Sound, CurrentThen, Versions;
    StalenessIsBounded(sys, actions, r);
    if actions != [] {
      CompleteQueriesAnswerExactly(sys, actions[..|actions| - 1], r);
      StepLosesNothing(Play(sys, actions[..|actions| - 1]), actions[|actions| - 1]);
    }
  }

  lemma StepLosesNothing(sys: System, a: Action)
    requires NothingLost(sys) && Legal(sys, a) && (a.Query? ==> a.lost == {})
    ensures NothingLost(Apply(sys, a))
  {
  }

  // ------------------------------------------------------------- reading one's own writes

  /** Every answer a reader of the tenant holds carries the row. */
  ghost predicate NoStaleAnswer(sys: System, tenant: string, key: string, on: bool) {
    forall r :: r in sys.readers && sys.readers[r].Holding? && sys.readers[r].tenant == tenant ==> Carries(sys.readers[r].flags, key, on)
  }

  /** Table, cache and every answer about to be stored carry the row. */
  ghost predicate UpToDate(sys: System, tenant: string, key: string, on: bool) {
    && Carries(Content(sys, tenant), key, on)
    && (tenant in sys.cache ==> Carries(sys.cache[tenant].flags, key, on))
    && NoStaleAnswer(sys, tenant, key, on)
  }

  predicate Rewrites(a: Action, tenant: string, key: string, on: bool) {
    a.Write? && a.tenant == tenant && a.key == key && a.on != on
  }

  /** The action is a query of the tenant that does not read the row. */
  predicate MissesRow(sys: System, a: Action, tenant: string, key: string) {
    a.Query? && a.r in sys.readers && sys.readers[a.r].tenant == tenant && key in a.lost
  }

  /** The row is not rewritten in the run; unless `lossy`, every query of the tenant reads it. */
  ghost predicate Undisturbed(sys: System, actions: seq<Action>, tenant: string, key: string, on: bool, lossy: bool)
    requires LegalPlay(sys, actions)
    decreases |actions|
  {
    actions == [] ||
    var before, a := actions[..|actions| - 1], actions[|actions| - 1];
    && Undisturbed(sys, before, tenant, key, on, lossy)
    && !Rewrites(a, tenant, key, on) && (lossy || !MissesRow(Play(sys, before), a, tenant, key))
  }

  /** A reader that began after `sys` was handed a map of the tenant without the row. */
  ghost predicate Hidden(sys: System, end: System, r: nat, tenant: string, key: string, on: bool) {
    r !in sys.readers && r in end.readers && end.readers[r].Returned? && end.readers[r].tenant == tenant
    && !Carries(end.readers[r].flags, key, on)
  }

  predicate HandedTheRow(r: Reader, tenant: string, key: string, on: bool) {
    r.Returned? && r.tenant == tenant ==> Carries(r.flags, key, on)
  }

  lemma StepKeepsUpToDate(sys: System, a: Action, tenant: string, key: string, on: bool)
    requires UpToDate(sys, tenant, key, on) && Legal(sys, a) && !Rewrites(a, tenant, key, on) && !MissesRow(sys, a, tenant, key)
    ensures UpToDate(Apply(sys, a), tenant, key, on)
    ensures forall r | r in Apply(sys, a).readers ::
      (r in sys.readers && sys.readers[r] == Apply(sys, a).readers[r]) || HandedTheRow(Apply(sys, a).readers[r], tenant, key, on)
  {
  }

  lemma {:induction false} PlayKeepsUpToDate(sys: System, actions: seq<Action>, tenant: string, key: string, on: bool)
    requires UpToDate(sys, tenant, key, on) && LegalPlay(sys, actions) && Undisturbed(sys, actions, tenant, key, on, false)
    ensures UpToDate(Play(sys, actions), tenant, key, on)
    ensures forall r :: !Hidden(sys, Play(sys, actions), r, tenant, key, on)
  {
    hide Apply, Legal, UpToDate, Rewrites, MissesRow, Carries;
    if actions != [] {
      var before, end := Play(sys, actions[..|actions| - 1]), Play(sys, actions);
      PlayKeepsUpToDate(sys, actions[..|actions| - 1], tenant, key, on);
      StepKeepsUpToDate(before, actions[|actions| - 1], tenant, key, on);
      forall r ensures !Hidden(sys, end, r, tenant, key, on) {
        assert !Hidden(sys, before, r, tenant, key, on);
      }
    }
  }

  lemma NoActionsYet(sys: System, tenant: string, key: string, on: bool, lossy: bool)
    ensures LegalPlay(sys, []) && Play(sys, []) == sys && Undisturbed(sys, [], tenant, key, on, lossy)
  {
  }

  lemma OneMore(sys: System, actions: seq<Action>, a: Action, tenant: string, key: string, on: bool, lossy: bool)
    requires LegalPlay(sys, actions) && Undisturbed(sys, actions, tenant, key, on, lossy) && Legal(Play(sys, actions), a)
    requires !Rewrites(a, tenant, key, on) && (lossy || !MissesRow(Play(sys, actions), a, tenant, key))
    ensures LegalPlay(sys, actions + [a]) && Undisturbed(sys, actions + [a], tenant, key, on, lossy)
    ensures Play(sys, actions + [a]) == Apply(Play(sys, actions), a)
  {
    hide Apply, Legal;
    assert (actions + [a])[..|actions|] == actions;
  }

  /** The first failing case: a fetch that queried before the write and stores after the
      invalidation puts the old content back, and a reader that begins afterwards gets it. */
  lemma StaleFetchResurfaces(sys: System, tenant: string, key: string, on: bool, r: nat, fresh_: nat) returns (actions: seq<Action>)
    requires r in sys.readers && sys.readers[r].Holding? && sys.readers[r].tenant == tenant && !Carries(sys.readers[r].flags, key, on)
    requires fresh_ !in sys.readers
    ensures LegalPlay(sys, actions) && Undisturbed(sys, actions, tenant, key, on, false)
    ensures Hidden(sys, Play(sys, actions), fresh_, tenant, key, on)
  {
    hide Carries;
    var first, second := Store(r, sys.clock), Begin(fresh_, tenant, sys.clock);
    assert Play(sys, []) == sys;
    OneMore(sys, [], first, tenant, key, on, false);
    OneMore(sys, [] + [first], second, tenant, key, on, false);
    actions := [] + [first] + [second];
    hide LegalPlay, Play, Undisturbed;
  }

  /** The second failing case: a query that does not read the row hides it from its own reader,
      and for all of the ttl from everybody who asks after, though no fetch was open. */
  lemma BrokenQueryHides(sys: System, tenant: string, key: string, on: bool, fresh_: nat, other: nat, later: nat)
    returns (actions: seq<Action>)
    requires tenant !in sys.cache && fresh_ !in sys.readers && other !in sys.readers && other != fresh_
    requires sys.clock <= later < sys.clock + 60
    ensures LegalPlay(sys, actions) && Undisturbed(sys, actions, tenant, key, on, true)
    ensures var end := Play(sys, actions);
      Hidden(sys, end, fresh_, tenant, key, on) && Hidden(sys, end, other, tenant, key, on) && end.readers[other].at == later
  {
    hide Content, Apply, Legal, Hidden, Carries, LegalPlay, Play, Undisturbed, MissesRow;
    var begin, query := Begin(fresh_, tenant, sys.clock), Query(fresh_, {key}, sys.clock);
    var store, again := Store(fresh_, sys.clock), Begin(other, tenant, later);
    NoActionsYet(sys, tenant, key, on, true);
    BeginMisses(sys, fresh_, tenant);
    OneMore(sys, [], begin, tenant, key, on, true);
    var s1 := Apply(sys, begin);
    QueryLoses(s1, fresh_, key);
    OneMore(sys, [] + [begin], query, tenant, key, on, true);
    var s2 := Apply(s1, query);
    StoreHandsOut(s2, fresh_);
    OneMore(sys, [] + [begin] + [query], store, tenant, key, on, true);
    var s3 := Apply(s2, store);
    BeginHits(s3, other, tenant, later);
    OneMore(sys, [] + [begin] + [query] + [store], again, tenant, key, on, true);
    actions := [] + [begin] + [query] + [store] + [again];
    HiddenFromBoth(sys, Apply(s3, again), fresh_, other, tenant, key, on);
  }

  lemma BeginMisses(sys: System, r: nat, tenant: string)
    requires tenant !in sys.cache && r !in sys.readers
    ensures var a := Begin(r, tenant, sys.clock);
      Legal(sys, a) && Apply(sys, a).readers == sys.readers[r := Missed(tenant)] && Apply(sys, a).clock == sys.clock
  {
  }

  lemma QueryLoses(sys: System, r: nat, key: string)
    requires r in sys.readers && sys.readers[r].Missed?
    ensures var a := Query(r, {key}, sys.clock);
      && Legal(sys, a) && Apply(sys, a).clock == sys.clock
      && var readers := Apply(sys, a).readers;
         r in readers && readers == sys.readers[r := readers[r]]
         && readers[r].Holding? && readers[r].tenant == sys.readers[r].tenant && key !in readers[r].flags
  {
    hide Content;
  }

  lemma StoreHandsOut(sys: System, r: nat)
    requires r in sys.readers && sys.readers[r].Holding?
    ensures var a, h := Store(r, sys.clock), sys.readers[r];
      && Legal(sys, a) && Apply(sys, a).clock == sys.clock
      && Apply(sys, a).readers == sys.readers[r := Returned(h.tenant, h.flags, h.origin, sys.clock, sys.clock)]
      && h.tenant in Apply(sys, a).cache && h.tenant in Apply(sys, a).origins
      && Apply(sys, a).cache[h.tenant] == CachedOrg(h.flags, sys.clock)
  {
  }

  lemma BeginHits(sys: System, r: nat, tenant: string, later: nat)
    requires r !in sys.readers && tenant in sys.cache && tenant in sys.origins
    requires sys.cache[tenant].fetched == sys.clock <= later < sys.clock + CACHE_TTL
    ensures var a, e := Begin(r, tenant, later), sys.cache[tenant];
      Legal(sys, a) && Apply(sys, a).readers == sys.readers[r := Returned(tenant, e.flags, sys.origins[tenant], e.fetched, later)]
  {
  }

  lemma HiddenFromBoth(sys: System, end: System, r: nat, other: nat, tenant: string, key: string, on: bool)
    requires r !in sys.readers && other !in sys.readers && r in end.readers && other in end.readers
    requires end.readers[r].Returned? && end.readers[r].tenant == tenant && key !in end.readers[r].flags
    requires end.readers[other].Returned? && end.readers[other].tenant == tenant && key !in end.readers[other].flags
    ensures Hidden(sys, end, r, tenant, key, on) && Hidden(sys, end, other, tenant, key, on)
  {
  }

  /** However the run goes on, as long as the row is not rewritten, every reader that begins from here on is handed it. */
  ghost predicate AlwaysShown(sys: System, tenant: string, key: string, on: bool, lossy: bool) {
    forall actions: seq<Action>, r: nat | LegalPlay(sys, actions) && Undisturbed(sys, actions, tenant, key, on, lossy) ::
      !Hidden(sys, Play(sys, actions), r, tenant, key, on)
  }

  lemma HidingRefutes(sys: System, actions: seq<Action>, r: nat, tenant: string, key: string, on: bool, lossy: bool)
    requires LegalPlay(sys, actions) && Undisturbed(sys, actions, tenant, key, on, lossy)
    requires Hidden(sys, Play(sys, actions), r, tenant, key, on)
    ensures !AlwaysShown(sys, tenant, key, on, lossy)
  {
    hide LegalPlay, Play, Undisturbed, Hidden;
  }

  /** When a Set has committed and invalidated, every reader that begins afterwards is handed the
      new row, until it is rewritten, if and only if no reader holds an answer without it and
      queries are sure to read it. */
  lemma SetVisibleIff(sys: System, tenant: string, key: string, on: bool, lossy: bool, fresh_: nat, other: nat)
    requires tenant !in sys.cache && Carries(Content(sys, tenant), key, on)
    requires fresh_ !in sys.readers && other !in sys.readers && other != fresh_
    ensures AlwaysShown(sys, tenant, key, on, lossy) <==> NoStaleAnswer(sys, tenant, key, on) && !lossy
  {
    hide LegalPlay, Play, Undisturbed, Hidden, Content;
    if lossy {
      var actions := BrokenQueryHides(sys, tenant, key, on, fresh_, other, sys.clock);
      HidingRefutes(sys, actions, fresh_, tenant, key, on, true);
    } else if NoStaleAnswer(sys, tenant, key, on) {
      forall actions: seq<Action>, r: nat | LegalPlay(sys, actions) && Undisturbed(sys, actions, tenant, key, on, false)
        ensures !Hidden(sys, Play(sys, actions), r, tenant, key, on)
      {
        PlayKeepsUpToDate(sys, actions, tenant, key, on);
      }
    } else {
      var r: nat :| r in sys.readers && sys.readers[r].Holding? && sys.readers[r].tenant == tenant && !Carries(sys.readers[r].flags, key, on);
      var actions := StaleFetchResurfaces(sys, tenant, key, on, r, fresh_);
      HidingRefutes(sys, actions, fresh_, tenant, key, on, false);
    }
  }
}
