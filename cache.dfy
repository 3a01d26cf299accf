/**
 * The response cache: aggregated statistics keyed by the username exactly as
 * typed, reused while fresh and refetched once stale. Only a successful fetch
 * writes an entry.
 */
module Cache {

  import opened Wrappers
  import opened Stats

  const CACHE_TIME: int := 180000

  datatype CacheEntry = CacheEntry(stats: PlayerStats, time: int)

  /**
   * What the upstream lookups produced: `Failed` when a request threw (a
   * network or HTTP error, or an unknown username at the identity service),
   * otherwise the stats provider's player record, which may be absent.
   */
  datatype Upstream = Failed | Answered(player: Option<Player>)

  /** The outcome of a lookup: from the cache, freshly fetched, no such player, or an error. */
  datatype Lookup = Cached(stats: PlayerStats) | Fetched(stats: PlayerStats) | NotFound | Error

  /** A lookup's outcome together with the cache it leaves behind. */
  datatype Step = Step(result: Lookup, entries: map<string, CacheEntry>)

  /** The entry for `username` exists and is at most CACHE_TIME old (the boundary is still fresh). */
  predicate Fresh(entries: map<string, CacheEntry>, username: string, now: int) {
    username in entries && now - entries[username].time <= CACHE_TIME
  }

  /** What fetching and aggregating yields for an upstream outcome. */
  function FetchOutcome(up: Upstream): Lookup {
    match up
    case Failed => Error
    case Answered(None) => NotFound
    case Answered(Some(p)) => Fetched(Aggregate(BedwarsBlob(p)))
  }

  /** One lookup of `username` at time `now`; `up` is consulted only when the entry is missing or stale. */
  function LookupStep(entries: map<string, CacheEntry>, username: string, now: int, up: Upstream): (s: Step)
    ensures Fresh(entries, username, now) ==> s == Step(Cached(entries[username].stats), entries)
    ensures !Fresh(entries, username, now) ==> s.result == FetchOutcome(up)
    ensures s.result.Fetched? ==> s.entries == entries[username := CacheEntry(s.result.stats, now)]
    ensures !s.result.Fetched? ==> s.entries == entries
  {
    if Fresh(entries, username, now) then
      Step(Cached(entries[username].stats), entries)
    else
      var r := FetchOutcome(up);
      if r.Fetched? then Step(r, entries[username := CacheEntry(r.stats, now)]) else Step(r, entries)
  }

  /** A lookup that yields statistics yields an entry for every registered mode. */
  lemma LookupIsTotal(entries: map<string, CacheEntry>, username: string, now: int, up: Upstream)
    requires forall u :: u in entries ==> entries[u].stats.Keys == Registry.ModeKeys()
    ensures var s := LookupStep(entries, username, now, up);
      (s.result.Cached? || s.result.Fetched?) ==> s.result.stats.Keys == Registry.ModeKeys()
    ensures forall u :: u in LookupStep(entries, username, now, up).entries ==>
      LookupStep(entries, username, now, up).entries[u].stats.Keys == Registry.ModeKeys()
  {
  }

  /**
   * A second lookup of a name within the window after a fetch reuses the
   * fetched statistics and does not fetch again, whatever upstream would say.
   */
  lemma RepeatWithinWindow(entries: map<string, CacheEntry>, username: string, t1: int, t2: int,
                           up1: Upstream, up2: Upstream)
    requires LookupStep(entries, username, t1, up1).result.Fetched?
    requires t2 - t1 <= CACHE_TIME
    ensures var first := LookupStep(entries, username, t1, up1);
      LookupStep(first.entries, username, t2, up2) == Step(Cached(first.result.stats), first.entries)
  {
  }

  /** A lookup after the window fetches again, and a successful fetch restamps the entry. */
  lemma StaleRefetches(entries: map<string, CacheEntry>, username: string, now: int, up: Upstream)
    requires username in entries && now - entries[username].time > CACHE_TIME
    ensures var s := LookupStep(entries, username, now, up);
      && s.result == FetchOutcome(up)
      && (up.Answered? && up.player.Some? ==> username in s.entries && s.entries[username].time == now)
  {
  }

  /** A failed lookup leaves the cache as it was, so the next lookup asks upstream again. */
  lemma FailureIsNotCached(entries: map<string, CacheEntry>, username: string, t1: int, t2: int,
                           up1: Upstream, up2: Upstream)
    requires !Fresh(entries, username, t1)
    requires !Fresh(entries, username, t2)
    requires up1 == Failed || up1 == Answered(None)
    ensures LookupStep(entries, username, t1, up1).entries == entries
    ensures LookupStep(LookupStep(entries, username, t1, up1).entries, username, t2, up2).result == FetchOutcome(up2)
  {
  }

  /** The in-memory response cache. */
  class ResponseCache {
    var entries: map<string, CacheEntry>

    constructor ()
      ensures entries == map[]
    {
      entries := map[];
    }

    /** Returns the statistics of `username`, from the cache while fresh, otherwise from upstream. */
    method GetOrFetch(username: string, now: int, up: Upstream) returns (r: Lookup)
      modifies this
      ensures Step(r, entries) == LookupStep(old(entries), username, now, up)
    {
      if username !in entries || now - entries[username].time > CACHE_TIME {
        if up.Failed? {
          return Error;
        }
        var stats := FetchStats(up.player);
        if stats.None? {
          return NotFound;
        }
        entries := entries[username := CacheEntry(stats.value, now)];
        return Fetched(entries[username].stats);
      }
      return Cached(entries[username].stats);
    }
  }
}
