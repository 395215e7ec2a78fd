/** The Redis wrapper and the tenant service of TenantCache, run one call at a time and in
    the source's form. Redis may be down for any operation; a stored value may fail to
    decode. Organisation codes arrive trimmed and in upper case. */
module TenantService {
  import opened Wrappers
  import opened TenantCache

  class Cache {
    var now: int
    var store: map<string, Entry>

    /** A value that does not decode is dropped and read as a miss. */
    method Get(key: string, down: bool, decodes: bool) returns (hit: Option<Entry>)
      modifies this`store
      ensures hit == if down || !decodes then None else CacheGet(old(store), KEY_PREFIX + key, now)
      ensures store == if !down && !decodes && CacheGet(old(store), KEY_PREFIX + key, now).Some?
                       then old(store) - {KEY_PREFIX + key} else old(store)
    {
      if down {
        return None;
      }
      if KEY_PREFIX + key !in store || store[KEY_PREFIX + key].expires <= now {
        return None;
      }
      var raw := store[KEY_PREFIX + key];
      if !decodes {
        store := store - {KEY_PREFIX + key};
        return None;
      }
      return Some(raw);
    }

    method Set(key: string, value: Tenant, ttl: int, down: bool)
      modifies this`store
      ensures store == if down then old(store)
                       else CacheSet(old(store), KEY_PREFIX + key, Entry(value, now + ttl, 0, now))
    {
      if down {
        return;
      }
      store := store[KEY_PREFIX + key := Entry(value, now + ttl, 0, now)];
    }

    method Invalidate(keys: seq<string>, down: bool)
      modifies this`store
      ensures store == if down then old(store) else old(store) - (set k | k in keys :: KEY_PREFIX + k)
    {
      if |keys| == 0 {
        assert old(store) - (set k | k in keys :: KEY_PREFIX + k) == old(store);
        return;
      }
      var prefixed := seq(|keys|, _ => "");
      for i := 0 to |keys|
        invariant |prefixed| == |keys|
        invariant forall j :: 0 <= j < i ==> prefixed[j] == KEY_PREFIX + keys[j]
      {
        prefixed := prefixed[i := KEY_PREFIX + keys[i]];
      }
      if !down {
        assert (set k | k in prefixed) == set k | k in keys :: KEY_PREFIX + k by {
          forall k | k in keys ensures KEY_PREFIX + k in prefixed {
            var j :| 0 <= j < |keys| && keys[j] == k;
            assert prefixed[j] == KEY_PREFIX + k;
          }
        }
        store := store - set k | k in prefixed;
      }
    }
  }

  class Service {
    const cache: Cache
    var db: map<Code, Tenant>

    constructor (cache: Cache, db: map<Code, Tenant>)
      ensures this.cache == cache && this.db == db
    {
      this.cache, this.db := cache, db;
    }

    /** A hit is returned as it is. A miss, or a hit that does not decode and is dropped,
        reads the row of an active tenant and refills the cache. */
    method LookupByOrgCode(code: Code, f: LookupFaults) returns (info: Option<Tenant>)
      modifies cache`store
      ensures info == LookupReply(old(cache.store), cache.now, db, code, f)
      ensures cache.store == LookupStore(old(cache.store), cache.now, db, code, f)
      ensures forall key ::
                key in cache.store && (key !in old(cache.store) || cache.store[key] != old(cache.store)[key]) ==>
                && key == OrgKey(code) && info == Some(cache.store[key].value) && code in db && info == Some(db[code])
                && cache.store[key].expires == cache.now + 300
    {
      if code == "" {
        return None;
      }
      var cacheKey := KeyTenantByOrgCode(code);
      var cached := cache.Get(cacheKey, f.get, !f.garbled);
      if cached.Some? {
        return Some(cached.value.value);
      }
      if f.read || code !in db || !db[code].active {
        return None;
      }
      cache.Set(cacheKey, db[code], TTL, f.store);
      return Some(db[code]);
    }

    /** A failed write is an error; a failed invalidation is ignored. */
    method UpdateBranding(code: Code, branding: Branding, writeFails: bool, deleteFails: bool)
      returns (updated: Option<Tenant>)
      modifies this`db, cache`store
      ensures updated.Some? <==> code in old(db) && !writeFails
      ensures updated.Some? ==>
                && db == old(db)[code := updated.value] && Branded(old(db)[code], branding, updated.value)
                && updated.value.plan == old(db)[code].plan && updated.value.active == old(db)[code].active
      ensures updated.None? ==> db == old(db)
      ensures db == if writeFails then old(db) else UpdateRows(old(db), code, branding)
      ensures cache.store == if writeFails then old(cache.store)
                             else UpdateStore(old(cache.store), old(db), code, deleteFails)
    {
      if writeFails || code !in db {
        return None;
      }
      var row := db[code];
      if branding.name != "" {
        row := row.(name := branding.name);
      }
      if branding.logoUrl != "" {
        row := row.(logoUrl := branding.logoUrl);
      }
      db := db[code := row.(theme := branding.theme)];
      var keys := [KeyTenantByOrgCode(code), KeyTenantByID(db[code].id)];
      cache.Invalidate(keys, deleteFails);
      assert (set k | k in keys :: KEY_PREFIX + k) == {OrgKey(code), IdKey(db[code].id)} by {
        assert keys[0] in keys && keys[1] in keys;
      }
      return Some(db[code]);
    }

    /** Undisturbed, a lookup after an update that reached Redis sees the new branding,
        whatever the cache held before. */
    method EditThenLookup(code: Code, branding: Branding) returns (info: Option<Tenant>)
      requires code != "" && code in db && db[code].active
      modifies this`db, cache`store
      ensures info.Some? && Branded(old(db)[code], branding, info.value)
      ensures info.value.plan == old(db)[code].plan
    {
      var _ := UpdateBranding(code, branding, false, false);
      info := LookupByOrgCode(code, LookupFaults(false, false, false, false));
    }
  }
}
