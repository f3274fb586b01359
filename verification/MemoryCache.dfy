/**
 * The in-process cache as an object: a map of byte arrays with expiry, a map of counter
 * cells bumped in place, and a janitor. Each operation is one step of CacheModel, and the
 * arrays it stores are reachable by nobody else.
 */
module MemoryCacheObject {
  import opened Common
  import opened CacheModel

  datatype Entry = Entry(value: array<byte>, expiresAt: nat)

  class CounterCell {
    var n: nat
    const expiresAt: nat

    constructor (expiresAt: nat)
      ensures n == 1 && this.expiresAt == expiresAt
    {
      n := 1;
      this.expiresAt := expiresAt;
    }
  }

  class MemoryCache {
    var items: map<string, Entry>
    var counters: map<string, CounterCell>
    const defaultTTL: nat

    /** The arrays the cache keeps for itself. */
    ghost function Arrays(): set<array<byte>>
      reads this
    {
      set k | k in items :: items[k].value
    }

    ghost function Cells(): set<CounterCell>
      reads this
    {
      set k | k in counters :: counters[k]
    }

    ghost predicate Valid()
      reads this
    {
      && defaultTTL > 0
      && forall a, b :: a in counters && b in counters && a != b ==> counters[a] != counters[b]
    }

    ghost function Items(): Store
      reads this, Arrays()
    {
      map k | k in items :: Record(items[k].value[..], items[k].expiresAt)
    }

    ghost function CounterView(): Counters
      reads this, Cells()
    {
      map k | k in counters :: Counter(counters[k].n, counters[k].expiresAt)
    }

    /** defaultTTL is five minutes when not configured. */
    constructor (defaultTTL: int)
      ensures Valid() && Items() == map[] && CounterView() == map[]
      ensures this.defaultTTL == if defaultTTL <= 0 then 5 * 60 * 1_000_000_000 else defaultTTL
    {
      items, counters := map[], map[];
      this.defaultTTL := if defaultTTL <= 0 then 5 * 60 * 1_000_000_000 else defaultTTL;
    }

    /** The caller gets a copy: writing to it cannot reach the cache. */
    method Get(key: string, now: nat) returns (out: array<byte>, ok: bool)
      requires Valid()
      ensures fresh(out)
      ensures ok == Lookup(Items(), key, now).Some?
      ensures ok ==> out[..] == Lookup(Items(), key, now).value
    {
      if key !in items || Expired(items[key].expiresAt, now) {
        out := new byte[0];
        return out, false;
      }
      out := Copy(items[key].value);
      ok := true;
    }

    /** The cache keeps a copy: an array of the caller's never becomes one of the cache's. */
    method Set(key: string, value: array<byte>, ttl: int, now: nat)
      requires Valid()
      modifies this`items
      ensures Valid()
      ensures Items() == Apply(defaultTTL, old(Items()), CacheModel.Set(key, value[..], ttl, now))
      ensures forall a :: a in Arrays() ==> a in old(Arrays()) || fresh(a)
    {
      ghost var before := Items();
      var v := Copy(value);
      items := items[key := Entry(v, now + EffectiveTtl(ttl, defaultTTL))];
      assert forall k :: k in before && k != key ==> Items()[k] == before[k];
    }

    method Delete(key: string)
      requires Valid()
      modifies this`items
      ensures Valid() && Items() == Apply(defaultTTL, old(Items()), CacheModel.Delete(key)) && Arrays() <= old(Arrays())
    {
      items := items - {key};
    }

    /** Stops the janitor and drops the items; counters stay. */
    method Close()
      requires Valid()
      modifies this`items
      ensures Valid() && Items() == Apply(defaultTTL, old(Items()), CacheModel.Close)
    {
      items := map[];
    }

    /** Adds one to the key's counter, in place unless a new window opens. */
    method Increment(key: string, ttl: int, now: nat) returns (n: nat)
      requires Valid()
      modifies this`counters, Cells()
      ensures Valid()
      ensures CounterView() == Count(defaultTTL, old(CounterView()), Hit(key, ttl, now))
      ensures n == CounterView()[key].n
    {
      hide EffectiveTtl, Expired;
      ghost var before := CounterView();
      if key !in counters || Expired(counters[key].expiresAt, now) {
        var c := new CounterCell(now + EffectiveTtl(ttl, defaultTTL));
        counters := counters[key := c];
        n := 1;
      } else {
        var c := counters[key];
        c.n := c.n + 1;
        n := c.n;
      }
      assert forall k :: k in before && k != key ==> CounterView()[k] == before[k];
    }

    /** One janitor tick deletes what has expired. */
    method JanitorTick(now: nat)
      requires Valid()
      modifies this`items, this`counters
      ensures Valid() && Arrays() <= old(Arrays())
      ensures Items() == Apply(defaultTTL, old(Items()), Sweep(now))
      ensures CounterView() == Count(defaultTTL, old(CounterView()), Purge(now))
    {
      SweepItems(now);
      PurgeCounters(now);
    }

    method SweepItems(now: nat)
      modifies this`items
      ensures items == map k | k in old(items) && !Expired(old(items)[k].expiresAt, now) :: old(items)[k]
    {
      var keys := items.Keys;
      while keys != {}
        invariant keys <= old(items).Keys
        invariant items == map k | k in old(items) && (k in keys || !Expired(old(items)[k].expiresAt, now)) :: old(items)[k]
        decreases keys
      {
        var k :| k in keys;
        if Expired(items[k].expiresAt, now) {
          items := items - {k};
        }
        keys := keys - {k};
      }
    }

    method PurgeCounters(now: nat)
      modifies this`counters
      ensures counters == map k | k in old(counters) && !Expired(old(counters)[k].expiresAt, now) :: old(counters)[k]
    {
      var keys := counters.Keys;
      while keys != {}
        invariant keys <= old(counters).Keys
        invariant counters == map k | k in old(counters) && (k in keys || !Expired(old(counters)[k].expiresAt, now)) :: old(counters)[k]
        decreases keys
      {
        var k :| k in keys;
        if Expired(counters[k].expiresAt, now) {
          counters := counters - {k};
        }
        keys := keys - {k};
      }
    }
  }

  method Copy(a: array<byte>) returns (b: array<byte>)
    ensures fresh(b) && b[..] == a[..]
  {
    b := new byte[a.Length];
    for i := 0 to a.Length
      invariant b[..i] == a[..i]
    {
      b[i] := a[i];
    }
  }
}
