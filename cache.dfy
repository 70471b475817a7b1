// The process-wide query cache: a `Map` from query keys to fetched data. The fetcher
// is asynchronous code outside this model, so what its promise settles to is passed in
// as `fetched`, and the method reports whether it would have been called.

module QueryCache {
  /** What the fetcher's promise settles to: a value, or a rejection. */
  datatype Settled<T> = Resolved(value: T) | Rejected

  /** One call of `getCachedData`: the new entries, what the call's own promise settles
      to (the value returned, or the fetcher's rejection passed on) and whether the
      fetcher ran. */
  datatype Lookup<T> = Lookup(entries: map<string, T>, outcome: Settled<T>, fetcherCalled: bool)

  function CachedLookup<T>(entries: map<string, T>, queryKey: string, fetched: Settled<T>): Lookup<T>
  {
    if queryKey in entries then Lookup(entries, Resolved(entries[queryKey]), false)
    else match fetched
      case Resolved(data) => Lookup(entries[queryKey := data], Resolved(data), true)
      case Rejected => Lookup(entries, Rejected, true)
  }

  /** A hit returns the stored value and does not fetch; a miss fetches once and
      settles as the fetcher did. */
  lemma HitOrFetch<T>(entries: map<string, T>, queryKey: string, fetched: Settled<T>)
    ensures var r := CachedLookup(entries, queryKey, fetched);
            (r.fetcherCalled <==> queryKey !in entries) &&
            (queryKey in entries ==> r.outcome == Resolved(entries[queryKey])) &&
            (queryKey !in entries ==> r.outcome == fetched)
  {
  }

  /** Entries are never overwritten and nothing is removed; only the queried key can
      be added, and it is added exactly when the call yields a value, which is then
      the value stored. */
  lemma LookupKeepsEntries<T>(entries: map<string, T>, queryKey: string, fetched: Settled<T>)
    ensures var r := CachedLookup(entries, queryKey, fetched);
            (forall k :: k in entries ==> k in r.entries && r.entries[k] == entries[k]) &&
            r.entries.Keys == entries.Keys + (if r.outcome.Resolved? then {queryKey} else {}) &&
            (r.outcome.Resolved? ==> queryKey in r.entries && r.entries[queryKey] == r.outcome.value)
  {
  }

  /** A rejected fetch stores nothing, so the next lookup of that key fetches again. */
  lemma RejectedFetchIsRetried<T>(entries: map<string, T>, queryKey: string, next: Settled<T>)
    requires queryKey !in entries
    ensures var r1 := CachedLookup(entries, queryKey, Rejected);
            var r2 := CachedLookup(r1.entries, queryKey, next);
            r1.entries == entries && r1.outcome == Rejected && r2.fetcherCalled && r2.outcome == next
  {
  }

  /** Once a lookup has yielded a value, a second lookup of the same key returns it
      without fetching, whatever the fetcher would now produce. */
  lemma SecondLookupHits<T>(entries: map<string, T>, queryKey: string, first: Settled<T>, second: Settled<T>)
    ensures var r1 := CachedLookup(entries, queryKey, first);
            var r2 := CachedLookup(r1.entries, queryKey, second);
            r1.outcome.Resolved? ==> r2.outcome == r1.outcome && !r2.fetcherCalled && r2.entries == r1.entries
  {
  }

  /** Lookups of different keys do not disturb each other. */
  lemma LookupsCommute<T>(entries: map<string, T>, a: string, b: string, x: Settled<T>, y: Settled<T>)
    requires a != b
    ensures var ab := CachedLookup(CachedLookup(entries, a, x).entries, b, y);
            var ba := CachedLookup(CachedLookup(entries, b, y).entries, a, x);
            ab.entries == ba.entries
  {
  }

  class Cache<T> {
    var entries: map<string, T>

    constructor()
      ensures entries == map[]
    {
      entries := map[];
    }

    /** `getCachedData(queryKey, fetcher)`. */
    method GetCachedData(queryKey: string, fetched: Settled<T>) returns (outcome: Settled<T>, fetcherCalled: bool)
      modifies this
      ensures CachedLookup(old(entries), queryKey, fetched) == Lookup(entries, outcome, fetcherCalled)
    {
      if queryKey in entries {
        return Resolved(entries[queryKey]), false;
      }
      fetcherCalled := true;
      match fetched {
        case Resolved(data) =>
          entries := entries[queryKey := data];
          outcome := Resolved(data);
        case Rejected =>
          outcome := Rejected;
      }
    }
  }
}
