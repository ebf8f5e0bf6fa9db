/**
 * `CacheService`: a two-tier cache, an in-process memory cache in front of a
 * distributed cache. Reads try memory first and promote a distributed hit
 * into memory; writes and removals go to both tiers. A cached entry may hold
 * null (JSON "null"), so each tier maps a key to an optional value; the JSON
 * round trip between the tiers is the identity.
 */
module CacheSpec {
  import opened Results
  import opened Guids

  datatype Tiers<V> = Tiers(memory: map<string, Option<V>>, distributed: map<string, Option<V>>)

  /** `GetAsync`: the memory entry, else the distributed entry (promoted into memory), else default. */
  function Get<V>(c: Tiers<V>, key: string): (Option<V>, Tiers<V>)
  {
    if key in c.memory then (c.memory[key], c)
    else if key !in c.distributed then (None, c)
    else (c.distributed[key], c.(memory := c.memory[key := c.distributed[key]]))
  }

  /** `SetAsync`: the value goes to memory, then to the distributed tier. */
  function Set<V>(c: Tiers<V>, key: string, value: Option<V>): Tiers<V>
  {
    Tiers(c.memory[key := value], c.distributed[key := value])
  }

  /** `RemoveAsync`: the key leaves memory, then the distributed tier. */
  function Remove<V>(c: Tiers<V>, key: string): Tiers<V>
  {
    Tiers(c.memory - {key}, c.distributed - {key})
  }

  /** `GetCacheKey`: the prefix, then the Id in its default ("D") format. */
  function CacheKey(userId: Guid): string
  {
    "OrderMeow_" + Format(userId)
  }

  /**
   * `GetOrCreateAsync` without its eviction callback: a non-null cached value
   * is returned as it is; otherwise `made`, the factory's result, is written
   * to both tiers and to memory once more, and returned. The third component
   * says whether the factory was called.
   */
  function GetOrCreate<V>(c: Tiers<V>, key: string, made: Option<V>): (Option<V>, Tiers<V>, bool)
  {
    var (cached, c1) := Get(c, key);
    if cached.Some? then (cached, c1, false)
    else
      var c2 := Set(c1, key, made);
      (made, c2.(memory := c2.memory[key := made]), true)
  }

  /** A memory hit is answered from memory, whatever the distributed tier holds, and changes nothing. */
  lemma MemoryHitIgnoresDistributed<V>(c: Tiers<V>, key: string, other: map<string, Option<V>>)
    requires key in c.memory
    ensures Get(c, key) == (c.memory[key], c)
    ensures Get(c.(distributed := other), key).0 == Get(c, key).0
  {
  }

  /** A key in neither tier reads as default and changes nothing. */
  lemma MissReturnsDefault<V>(c: Tiers<V>, key: string)
    requires key !in c.memory && key !in c.distributed
    ensures Get(c, key) == (None, c)
  {
  }

  /**
   * A distributed hit returns the distributed entry and copies it into
   * memory, leaving the distributed tier and every other key as they were;
   * reading again then hits memory with the same value.
   */
  lemma DistributedHitPromoted<V>(c: Tiers<V>, key: string)
    requires key !in c.memory && key in c.distributed
    ensures var (r, c1) := Get(c, key);
      && r == c.distributed[key]
      && c1.distributed == c.distributed
      && key in c1.memory && c1.memory[key] == r
      && (forall k :: k != key ==> (k in c1.memory <==> k in c.memory))
      && (forall k :: k != key && k in c.memory ==> c1.memory[k] == c.memory[k])
      && Get(c1, key) == (r, c1)
  {
  }

  /** After `SetAsync(k, v)`, reading `k` gives `v` with no promotion; other keys read as before. */
  lemma SetThenGet<V>(c: Tiers<V>, key: string, value: Option<V>, other: string)
    ensures Get(Set(c, key, value), key) == (value, Set(c, key, value))
    ensures other != key ==> Get(Set(c, key, value), other).0 == Get(c, other).0
  {
  }

  /** After `RemoveAsync(k)`, reading `k` gives default; other keys read as before. */
  lemma RemoveThenGet<V>(c: Tiers<V>, key: string, other: string)
    ensures Get(Remove(c, key), key) == (None, Remove(c, key))
    ensures other != key ==> Get(Remove(c, key), other).0 == Get(c, other).0
  {
  }

  /** Removing twice is removing once. */
  lemma RemoveIdempotent<V>(c: Tiers<V>, key: string)
    ensures Remove(Remove(c, key), key) == Remove(c, key)
  {
  }

  /** Each user's key is the prefix followed by the 36-character Id, and different users get different keys. */
  lemma CacheKeyShape(a: Guid, b: Guid)
    ensures |CacheKey(a)| == 46 && CacheKey(a)[..10] == "OrderMeow_"
    ensures CacheKey(a) == CacheKey(b) ==> a == b
  {
    if CacheKey(a) == CacheKey(b) {
      assert Format(a) == CacheKey(a)[10..];
      assert Format(b) == CacheKey(b)[10..];
      FormatInjective(a, b);
    }
  }

  /** A non-null cached value is returned without calling the factory, with the tiers that `GetAsync` leaves. */
  lemma GetOrCreateHit<V>(c: Tiers<V>, key: string, made: Option<V>)
    requires Get(c, key).0.Some?
    ensures GetOrCreate(c, key, made) == (Get(c, key).0, Get(c, key).1, false)
  {
  }

  /**
   * On a miss, or a cached null, the factory is called once and its result is
   * returned and stored in both tiers, so the next read returns it and, when
   * it is not null, the next `GetOrCreateAsync` does not call the factory.
   */
  lemma GetOrCreateMiss<V>(c: Tiers<V>, key: string, made: Option<V>, next: Option<V>)
    requires Get(c, key).0.None?
    ensures var (r, c1, called) := GetOrCreate(c, key, made);
      && r == made && called
      && c1 == Set(Get(c, key).1, key, made)
      && Get(c1, key) == (made, c1)
      && (made.Some? ==> GetOrCreate(c1, key, next) == (made, c1, false))
  {
    var c0 := Get(c, key).1;
    var c2 := Set(c0, key, made);
    assert c2.memory[key := made] == c2.memory;
  }
}

module CacheServices {
  import opened Results
  import CacheSpec

  class CacheService<V> {
    /** The memory cache, key by key. */
    var memory: map<string, Option<V>>
    /** The distributed cache, key by key, holding each value's JSON. */
    var distributed: map<string, Option<V>>
    /** How many times a factory passed to `GetOrCreate` has been called. */
    ghost var factoryCalls: nat

    constructor()
      ensures memory == map[] && distributed == map[] && factoryCalls == 0
    {
      memory := map[];
      distributed := map[];
      factoryCalls := 0;
    }

    function Tiers(): CacheSpec.Tiers<V>
      reads this
    {
      CacheSpec.Tiers(memory, distributed)
    }

    method Get(key: string) returns (r: Option<V>)
      modifies this
      ensures (r, Tiers()) == CacheSpec.Get(old(Tiers()), key)
      ensures factoryCalls == old(factoryCalls)
    {
      if key in memory {
        return memory[key];
      }
      if key !in distributed {
        return None;
      }
      r := distributed[key];
      memory := memory[key := r];
    }

    method Set(key: string, value: Option<V>)
      modifies this
      ensures Tiers() == CacheSpec.Set(old(Tiers()), key, value)
      ensures factoryCalls == old(factoryCalls)
    {
      memory := memory[key := value];
      distributed := distributed[key := value];
    }

    method Remove(key: string)
      modifies this
      ensures Tiers() == CacheSpec.Remove(old(Tiers()), key)
      ensures factoryCalls == old(factoryCalls)
    {
      memory := memory - {key};
      distributed := distributed - {key};
    }

    /** The factory is called, and counted, only when the cached value is null or missing. */
    method GetOrCreate(key: string, factory: () -> Option<V>) returns (r: Option<V>)
      modifies this
      ensures var (spec, tiers, called) := CacheSpec.GetOrCreate(old(Tiers()), key, factory());
        && r == spec && Tiers() == tiers
        && factoryCalls == old(factoryCalls) + (if called then 1 else 0)
    {
      var cached := Get(key);
      if cached.Some? {
        return cached;
      }
      r := factory();
      factoryCalls := factoryCalls + 1;
      Set(key, r);
      memory := memory[key := r];
    }
  }
}
