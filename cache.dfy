/** The response cache of the analyze handler: generated text keyed by the prompt's
    fingerprint, served for an hour after it was written. */
module Cache {
  import opened Wrappers

  /** How long an entry is served, in seconds. */
  const CacheTtl: int := 3600

  /** A cached response and the time it was written. */
  datatype CacheEntry = CacheEntry(text: string, ts: int)

  /** The entry may still be served at `now`. */
  predicate Live(e: CacheEntry, now: int) {
    now - e.ts < CacheTtl
  }

  /** The entries of `entries` still live at `now`. */
  function Evict(entries: map<string, CacheEntry>, now: int): map<string, CacheEntry> {
    map k | k in entries && Live(entries[k], now) :: entries[k]
  }

  /** A lookup of fingerprint `h` at `now`: the stored text while its entry is live, a miss
      otherwise. */
  function Lookup(entries: map<string, CacheEntry>, h: string, now: int): (r: Option<string>)
    ensures r.Some? <==> h in entries && now - entries[h].ts < CacheTtl
    ensures r.Some? ==> r.value == entries[h].text
  {
    if h in entries && Live(entries[h], now) then Some(entries[h].text) else None
  }

  /** Writes `text` under `h` stamped with `now`, then drops every entry that is no longer
      live; live entries under other fingerprints are left as they were. */
  function Store(entries: map<string, CacheEntry>, h: string, text: string, now: int): (m: map<string, CacheEntry>)
    ensures h in m && m[h] == CacheEntry(text, now)
    ensures forall k :: k in m <==> k == h || (k in entries && now - entries[k].ts < CacheTtl)
    ensures forall k :: k in m && k != h ==> m[k] == entries[k]
  {
    Evict(entries[h := CacheEntry(text, now)], now)
  }

  /** An entry written at `t` is a hit for a lookup `d` seconds later exactly when `d` is
      below the time-to-live. */
  lemma StoreThenLookup(entries: map<string, CacheEntry>, h: string, text: string, t: int, d: int)
    ensures Lookup(Store(entries, h, text, t), h, t + d) == if d < CacheTtl then Some(text) else None
  {
  }

  /** A write never changes what a lookup of another fingerprint at the same time returns. */
  lemma StoreKeepsOtherLookups(entries: map<string, CacheEntry>, h: string, text: string, now: int, g: string)
    requires g != h
    ensures Lookup(Store(entries, h, text, now), g, now) == Lookup(entries, g, now)
  {
  }

  /** The in-memory response cache. A missing or unreadable cache file reads as empty, so a new
      cache starts with no entries. */
  class ResponseCache {
    var entries: map<string, CacheEntry>

    constructor ()
      ensures entries == map[]
    {
      entries := map[];
    }

    /** The text cached under `h` at `now`, if any; the cache is not changed. */
    function Get(h: string, now: int): (r: Option<string>)
      reads this
      ensures r.Some? <==> h in entries && now - entries[h].ts < CacheTtl
      ensures r.Some? ==> r.value == entries[h].text
    {
      Lookup(entries, h, now)
    }

    /** Caches `text` under `h`, stamped `now`, and evicts expired entries. */
    method Put(h: string, text: string, now: int)
      modifies this
      ensures entries == Store(old(entries), h, text, now)
    {
      entries := entries[h := CacheEntry(text, now)];
      entries := Evict(entries, now);
    }
  }
}
