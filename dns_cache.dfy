/**
 * The DNS cache: resolved domains and resolution errors with a soft expiry
 * second, a hard expiry a fixed delta later, and per-second cleanup buckets
 * that drop entries once they are hard-expired.
 */
module DnsCaches {
  import opened Base

  datatype RecordType = ARecord | AaaaRecord | OtherRecord

  /** A cached lookup: the addresses and record type of a successful query, or the error of a failed one. */
  datatype Cached<Ip, Err> =
    | Success(ips: seq<Ip>, recordType: RecordType, expirationSecond: int)
    | Failure(error: Err, expirationSecond: int)

  /** A successful query as the resolver hands it to the cache. */
  datatype QueryResult<Ip> = QueryResult(domainName: string, ips: seq<Ip>, recordType: RecordType, minTtl: nat)

  datatype Freshness = Fresh | SoftTtlExpired | HardTtlExpired

  datatype CacheQueryResult = Resolved | ResolvedNeedsRefreshing | NotResolved

  /** The one call `tryToResolve` makes on its callback. */
  datatype Notification<Ip, Err> = OnResult(ips: seq<Ip>) | OnException(error: Err)

  /** The hard expiry second: the soft one plus the whole seconds of the delta. */
  function HardSecond(soft: int, hardDeltaMillis: nat): int {
    soft + hardDeltaMillis / 1000
  }

  /** `getResultFreshness`: hard-expired from the hard second on, soft-expired from the soft second on. */
  function FreshnessAt(soft: int, hardDeltaMillis: nat, now: int): (f: Freshness)
    ensures f == HardTtlExpired <==> now >= HardSecond(soft, hardDeltaMillis)
    ensures f == SoftTtlExpired <==> soft <= now < HardSecond(soft, hardDeltaMillis)
    ensures f == Fresh <==> now < soft
  {
    var hard := HardSecond(soft, hardDeltaMillis);
    if now >= hard then HardTtlExpired
    else if now >= soft then SoftTtlExpired
    else Fresh
  }

  function Rank(f: Freshness): nat {
    match f
    case Fresh => 0
    case SoftTtlExpired => 1
    case HardTtlExpired => 2
  }

  /** An entry only ages: as time passes its freshness goes from fresh to soft-expired to hard-expired, never back. */
  lemma FreshnessMonotone(soft: int, hardDeltaMillis: nat, t1: int, t2: int)
    requires t1 <= t2
    ensures Rank(FreshnessAt(soft, hardDeltaMillis, t1)) <= Rank(FreshnessAt(soft, hardDeltaMillis, t2))
  {
  }

  /** `isRequestedType`: an A record answers IPv4 queries and an AAAA record answers IPv6 queries. */
  function IsRequestedType(t: RecordType, ipv6: bool): (b: bool)
    ensures b <==> (t == ARecord && !ipv6) || (t == AaaaRecord && ipv6)
  {
    if t == ARecord && !ipv6 then true
    else if t == AaaaRecord && ipv6 then true
    else false
  }

  /** `returnResultThroughCallback`: the addresses of a success, the error of a failure. */
  function Notify<Ip, Err>(c: Cached<Ip, Err>): Notification<Ip, Err> {
    match c
    case Success(ips, _, _) => OnResult(ips)
    case Failure(e, _) => OnException(e)
  }

  /**
   * `tryToResolve`: a miss, a successful entry of the other record type and
   * a hard-expired entry are not resolved and call nothing back; otherwise
   * the entry goes to the callback once, and a soft-expired entry asks for
   * a refresh. Error entries skip the type check.
   */
  function TryToResolve<Ip, Err>(cache: map<string, Cached<Ip, Err>>, hardDeltaMillis: nat, domain: string, ipv6: bool, now: int)
    : (r: (CacheQueryResult, Option<Notification<Ip, Err>>))
    ensures r.0 == NotResolved <==> r.1 == None
    ensures r.0 != NotResolved <==>
              && domain in cache
              && (cache[domain].Success? ==> IsRequestedType(cache[domain].recordType, ipv6))
              && now < HardSecond(cache[domain].expirationSecond, hardDeltaMillis)
    ensures r.1.Some? ==> r.1.value == Notify(cache[domain])
    ensures r.0 == Resolved ==> now < cache[domain].expirationSecond
    ensures r.0 == ResolvedNeedsRefreshing ==> now >= cache[domain].expirationSecond
  {
    if domain !in cache then (NotResolved, None)
    else
      var c := cache[domain];
      if c.Success? && !IsRequestedType(c.recordType, ipv6) then (NotResolved, None)
      else match FreshnessAt(c.expirationSecond, hardDeltaMillis, now)
        case HardTtlExpired => (NotResolved, None)
        case SoftTtlExpired => (ResolvedNeedsRefreshing, Some(Notify(c)))
        case Fresh => (Resolved, Some(Notify(c)))
  }

  // ---------------------------------------------------------------- the tables

  /** The cache's state: the entries, the cleanup buckets by second, and the last cleanup second. */
  datatype Tables<Ip, Err> = Tables(cache: map<string, Cached<Ip, Err>>, expirations: map<int, set<string>>, lastCleanupSecond: int)

  /** `expirations.put`: the domain joins the bucket of that second. */
  function Put(expirations: map<int, set<string>>, second: int, domain: string): (r: map<int, set<string>>)
    ensures r.Keys == expirations.Keys + {second}
    ensures domain in r[second]
    ensures forall i :: i in expirations ==> expirations[i] <= r[i]
  {
    expirations[second := (if second in expirations then expirations[second] else {}) + {domain}]
  }

  /** `add(result)`: nothing for a zero TTL; otherwise the entry expires softly after the TTL and is queued at its hard second. */
  function AddResult<Ip, Err>(t: Tables<Ip, Err>, hardDeltaMillis: nat, q: QueryResult<Ip>, now: int): (r: Tables<Ip, Err>)
    ensures r.lastCleanupSecond == t.lastCleanupSecond
    ensures q.minTtl == 0 ==> r == t
    ensures q.minTtl > 0 ==>
              && r.cache.Keys == t.cache.Keys + {q.domainName}
              && (forall d :: d in t.cache && d != q.domainName ==> r.cache[d] == t.cache[d])
              && var e := r.cache[q.domainName];
                 && e.Success? && e.ips == q.ips && e.recordType == q.recordType
                 && FreshnessAt(e.expirationSecond, hardDeltaMillis, now) == Fresh
                 && HardSecond(e.expirationSecond, hardDeltaMillis) in r.expirations
                 && q.domainName in r.expirations[HardSecond(e.expirationSecond, hardDeltaMillis)]
  {
    if q.minTtl == 0 then t
    else
      var soft := q.minTtl + now;
      Tables(t.cache[q.domainName := Success(q.ips, q.recordType, soft)],
             Put(t.expirations, HardSecond(soft, hardDeltaMillis), q.domainName),
             t.lastCleanupSecond)
  }

  /** `add(exception)` as written: the error expires softly after the error delay and is queued at that soft second. */
  function AddErrorAsWritten<Ip, Err>(t: Tables<Ip, Err>, errorMillis: nat, hardDeltaMillis: nat, domain: string, error: Err, now: int): (r: Tables<Ip, Err>)
    ensures r.lastCleanupSecond == t.lastCleanupSecond && r.cache.Keys == t.cache.Keys + {domain}
    ensures var e := r.cache[domain];
            e == Failure(error, e.expirationSecond) && e.expirationSecond >= now
            && e.expirationSecond in r.expirations && domain in r.expirations[e.expirationSecond]
  {
    var soft := errorMillis / 1000 + now;
    Tables(t.cache[domain := Failure(error, soft)], Put(t.expirations, soft, domain), t.lastCleanupSecond)
  }

  /** `add(exception)` queued at the error's hard second, as `add(result)` does. */
  function AddError<Ip, Err>(t: Tables<Ip, Err>, errorMillis: nat, hardDeltaMillis: nat, domain: string, error: Err, now: int): (r: Tables<Ip, Err>)
    ensures r.lastCleanupSecond == t.lastCleanupSecond && r.cache.Keys == t.cache.Keys + {domain}
    ensures var e := r.cache[domain];
            e == Failure(error, e.expirationSecond) && e.expirationSecond >= now
            && HardSecond(e.expirationSecond, hardDeltaMillis) in r.expirations
            && domain in r.expirations[HardSecond(e.expirationSecond, hardDeltaMillis)]
  {
    var soft := errorMillis / 1000 + now;
    Tables(t.cache[domain := Failure(error, soft)], Put(t.expirations, HardSecond(soft, hardDeltaMillis), domain), t.lastCleanupSecond)
  }

  /** The domains of the buckets `lo` to `hi`, inclusive. */
  function Drained(expirations: map<int, set<string>>, lo: int, hi: int): set<string>
    decreases hi - lo
  {
    if lo > hi then {} else (if lo in expirations then expirations[lo] else {}) + Drained(expirations, lo + 1, hi)
  }

  lemma {:induction false} DrainedContains(expirations: map<int, set<string>>, lo: int, hi: int, i: int, d: string)
    requires lo <= i <= hi && i in expirations && d in expirations[i]
    ensures d in Drained(expirations, lo, hi)
    decreases hi - lo
  {
    if lo < i {
      DrainedContains(expirations, lo + 1, hi, i, d);
    }
  }

  /** The entries left once the hard-expired ones among `doomed` are removed. */
  function Sweep<Ip, Err>(cache: map<string, Cached<Ip, Err>>, doomed: set<string>, hardDeltaMillis: nat, now: int): (r: map<string, Cached<Ip, Err>>)
    ensures forall d :: d in r <==> d in cache && !(d in doomed && FreshnessAt(cache[d].expirationSecond, hardDeltaMillis, now) == HardTtlExpired)
    ensures forall d :: d in r ==> r[d] == cache[d]
  {
    map d | d in cache && !(d in doomed && FreshnessAt(cache[d].expirationSecond, hardDeltaMillis, now) == HardTtlExpired) :: cache[d]
  }

  /** Sweeping two sets of domains one after the other is sweeping their union. */
  lemma SweepTwice<Ip, Err>(cache: map<string, Cached<Ip, Err>>, a: set<string>, b: set<string>, hardDeltaMillis: nat, now: int)
    ensures Sweep(Sweep(cache, a, hardDeltaMillis, now), b, hardDeltaMillis, now) == Sweep(cache, a + b, hardDeltaMillis, now)
  {
  }

  /** The buckets left once those from `lo` to `hi` are removed. */
  function RemoveBuckets(expirations: map<int, set<string>>, lo: int, hi: int): (r: map<int, set<string>>)
    ensures forall i :: i in r <==> i in expirations && !(lo <= i <= hi)
    ensures forall i :: i in r ==> r[i] == expirations[i]
  {
    map i | i in expirations && !(lo <= i <= hi) :: expirations[i]
  }

  /** `performCleanup`: only later than the last cleanup, it drains the buckets from it to now and drops what is hard-expired. */
  function Cleanup<Ip, Err>(t: Tables<Ip, Err>, hardDeltaMillis: nat, now: int): (r: Tables<Ip, Err>)
    ensures now <= t.lastCleanupSecond ==> r == t
    ensures now > t.lastCleanupSecond ==>
              && r.lastCleanupSecond == now
              && (forall d :: d in r.cache ==> d in t.cache && r.cache[d] == t.cache[d])
              && (forall i :: i in r.expirations ==> i > now || i < t.lastCleanupSecond)
  {
    if now > t.lastCleanupSecond then
      Tables(Sweep(t.cache, Drained(t.expirations, t.lastCleanupSecond, now), hardDeltaMillis, now),
             RemoveBuckets(t.expirations, t.lastCleanupSecond, now),
             now)
    else t
  }

  /** Every entry is queued in the bucket of its hard second, and that second is not before the last cleanup. */
  ghost predicate Tracked<Ip, Err>(t: Tables<Ip, Err>, hardDeltaMillis: nat) {
    forall d :: d in t.cache ==>
      var h := HardSecond(t.cache[d].expirationSecond, hardDeltaMillis);
      h >= t.lastCleanupSecond && h in t.expirations && d in t.expirations[h]
  }

  lemma AddResultTracked<Ip, Err>(t: Tables<Ip, Err>, hardDeltaMillis: nat, q: QueryResult<Ip>, now: int)
    requires Tracked(t, hardDeltaMillis) && now >= t.lastCleanupSecond
    ensures Tracked(AddResult(t, hardDeltaMillis, q, now), hardDeltaMillis)
  {
  }

  lemma AddErrorTracked<Ip, Err>(t: Tables<Ip, Err>, errorMillis: nat, hardDeltaMillis: nat, domain: string, error: Err, now: int)
    requires Tracked(t, hardDeltaMillis) && now >= t.lastCleanupSecond
    ensures Tracked(AddError(t, errorMillis, hardDeltaMillis, domain, error, now), hardDeltaMillis)
  {
  }

  /** A cleanup keeps every entry tracked and leaves no entry that is hard-expired at the cleanup second. */
  lemma CleanupTracked<Ip, Err>(t: Tables<Ip, Err>, hardDeltaMillis: nat, now: int)
    requires Tracked(t, hardDeltaMillis) && now > t.lastCleanupSecond
    ensures var t' := Cleanup(t, hardDeltaMillis, now);
            && Tracked(t', hardDeltaMillis)
            && forall d :: d in t'.cache ==> FreshnessAt(t'.cache[d].expirationSecond, hardDeltaMillis, now) != HardTtlExpired
  {
    var t' := Cleanup(t, hardDeltaMillis, now);
    forall d | d in t'.cache
      ensures HardSecond(t.cache[d].expirationSecond, hardDeltaMillis) > now
    {
      var h := HardSecond(t.cache[d].expirationSecond, hardDeltaMillis);
      if h <= now {
        DrainedContains(t.expirations, t.lastCleanupSecond, now, h, d);
      }
    }
  }

  /**
   * As written, an error entry can outlive its hard expiry: with a one
   * second error delay and a two second hard delta, an error added at second
   * 0 is queued at second 1; the cleanup at second 1 finds it only
   * soft-expired and drops its bucket, so at second 5 it is hard-expired and
   * still cached, with no bucket left to remove it.
   */
  lemma ErrorEntryOutlivesCleanup<Ip, Err>(error: Err)
    ensures var t0: Tables<Ip, Err> := Tables(map[], map[], 0);
            var t1 := AddErrorAsWritten(t0, 1000, 2000, "host", error, 0);
            var t3 := Cleanup(Cleanup(t1, 2000, 1), 2000, 5);
            && "host" in t3.cache
            && FreshnessAt(t3.cache["host"].expirationSecond, 2000, 5) == HardTtlExpired
            && forall i :: i in t3.expirations ==> "host" !in t3.expirations[i]
  {
    var t0: Tables<Ip, Err> := Tables(map[], map[], 0);
    var t1 := AddErrorAsWritten(t0, 1000, 2000, "host", error, 0);
    var t2 := Cleanup(t1, 2000, 1);
    assert Drained(t1.expirations, 0, 1) == {"host"} by {
      assert Drained(t1.expirations, 2, 1) == {};
    }
    assert t2.expirations == map[];
    assert "host" in t2.cache;
    var t3 := Cleanup(t2, 2000, 5);
    assert "host" in t3.cache;
  }

  /** Queued at its hard second, the same error is gone after the cleanup at second 5. */
  lemma ErrorEntryRemovedWhenQueuedAtHardSecond<Ip, Err>(error: Err)
    ensures var t0: Tables<Ip, Err> := Tables(map[], map[], 0);
            var t1 := AddError(t0, 1000, 2000, "host", error, 0);
            "host" !in Cleanup(Cleanup(t1, 2000, 1), 2000, 5).cache
  {
    var t0: Tables<Ip, Err> := Tables(map[], map[], 0);
    var t1 := AddError(t0, 1000, 2000, "host", error, 0);
    assert Tracked(t0, 2000);
    AddErrorTracked(t0, 1000, 2000, "host", error, 0);
    CleanupTracked(t1, 2000, 1);
    CleanupTracked(Cleanup(t1, 2000, 1), 2000, 5);
  }

  // ---------------------------------------------------------------- the class

  class DnsCache<Ip, Err> {
    const errorCacheExpirationMillis: nat
    const hardExpirationDeltaMillis: nat
    var cache: map<string, Cached<Ip, Err>>
    var expirations: map<int, set<string>>
    var lastCleanupSecond: int

    function State(): Tables<Ip, Err>
      reads this
    {
      Tables(cache, expirations, lastCleanupSecond)
    }

    ghost predicate Valid()
      reads this
    {
      Tracked(State(), hardExpirationDeltaMillis)
    }

    /** The cleanup clock starts at the current second. */
    constructor (errorCacheExpirationMillis: nat, hardExpirationDeltaMillis: nat, nowMillis: nat)
      ensures Valid()
      ensures this.errorCacheExpirationMillis == errorCacheExpirationMillis
      ensures this.hardExpirationDeltaMillis == hardExpirationDeltaMillis
      ensures cache == map[] && expirations == map[] && lastCleanupSecond == nowMillis / 1000
    {
      this.errorCacheExpirationMillis := errorCacheExpirationMillis;
      this.hardExpirationDeltaMillis := hardExpirationDeltaMillis;
      cache := map[];
      expirations := map[];
      lastCleanupSecond := nowMillis / 1000;
    }

    /** `add(result)`; the event loop's clock never runs behind the last cleanup. */
    method Add(q: QueryResult<Ip>, nowMillis: nat)
      requires Valid() && nowMillis / 1000 >= lastCleanupSecond
      modifies this
      ensures Valid()
      ensures State() == AddResult(old(State()), hardExpirationDeltaMillis, q, nowMillis / 1000)
    {
      ghost var t := AddResult(State(), hardExpirationDeltaMillis, q, nowMillis / 1000);
      AddResultTracked(State(), hardExpirationDeltaMillis, q, nowMillis / 1000);
      if q.minTtl == 0 {
        return;
      }
      var expirationSecond := q.minTtl + nowMillis / 1000;
      cache := cache[q.domainName := Success(q.ips, q.recordType, expirationSecond)];
      expirations := Put(expirations, expirationSecond + hardExpirationDeltaMillis / 1000, q.domainName);
      assert State() == t;
    }

    /** `add(exception)`, with the error queued at its hard second. */
    method AddException(domain: string, error: Err, nowMillis: nat)
      requires Valid() && nowMillis / 1000 >= lastCleanupSecond
      modifies this
      ensures Valid()
      ensures State() == AddError(old(State()), errorCacheExpirationMillis, hardExpirationDeltaMillis, domain, error, nowMillis / 1000)
    {
      ghost var t := AddError(State(), errorCacheExpirationMillis, hardExpirationDeltaMillis, domain, error, nowMillis / 1000);
      AddErrorTracked(State(), errorCacheExpirationMillis, hardExpirationDeltaMillis, domain, error, nowMillis / 1000);
      var expirationSecond := errorCacheExpirationMillis / 1000 + nowMillis / 1000;
      cache := cache[domain := Failure(error, expirationSecond)];
      expirations := Put(expirations, expirationSecond + hardExpirationDeltaMillis / 1000, domain);
      assert State() == t;
    }

    /** `performCleanup`: runs `clearCache` only when the current second is past the last cleanup. */
    method PerformCleanup(nowMillis: nat)
      requires Valid()
      modifies this
      ensures Valid()
      ensures State() == Cleanup(old(State()), hardExpirationDeltaMillis, nowMillis / 1000)
    {
      var callSecond := nowMillis / 1000;
      if callSecond > lastCleanupSecond {
        CleanupTracked(State(), hardExpirationDeltaMillis, callSecond);
        ClearCache(callSecond, lastCleanupSecond);
        lastCleanupSecond := callSecond;
      }
    }

    /** `clearCache`: for each second from `last` to `callSecond`, drain its bucket and drop the hard-expired among its domains. */
    method ClearCache(callSecond: int, last: int)
      requires last <= callSecond
      modifies this`cache, this`expirations
      ensures cache == Sweep(old(cache), Drained(old(expirations), last, callSecond), hardExpirationDeltaMillis, callSecond)
      ensures expirations == RemoveBuckets(old(expirations), last, callSecond)
    {
      var i := last;
      while i <= callSecond
        invariant last <= i <= callSecond + 1
        invariant cache == Sweep(old(cache), Drained(old(expirations), last, i - 1), hardExpirationDeltaMillis, callSecond)
        invariant expirations == RemoveBuckets(old(expirations), last, i - 1)
      {
        var domainNames := if i in expirations then expirations[i] else {};
        assert domainNames == (if i in old(expirations) then old(expirations)[i] else {});
        expirations := map j | j in expirations && j != i :: expirations[j];
        RemoveOneMore(old(expirations), last, i);
        SweepBucket(domainNames, callSecond);
        DrainedStep(old(expirations), last, i);
        SweepTwice(old(cache), Drained(old(expirations), last, i - 1), domainNames, hardExpirationDeltaMillis, callSecond);
        i := i + 1;
      }
    }

    /** The inner loop of `clearCache`: each domain of one bucket is removed if its entry is hard-expired. */
    method SweepBucket(domainNames: set<string>, callSecond: int)
      modifies this`cache
      ensures cache == Sweep(old(cache), domainNames, hardExpirationDeltaMillis, callSecond)
    {
      var rest := domainNames;
      while rest != {}
        invariant rest <= domainNames
        invariant cache == Sweep(old(cache), domainNames - rest, hardExpirationDeltaMillis, callSecond)
        decreases |rest|
      {
        var domainName :| domainName in rest;
        if domainName in cache && FreshnessAt(cache[domainName].expirationSecond, hardExpirationDeltaMillis, callSecond) == HardTtlExpired {
          cache := map d | d in cache && d != domainName :: cache[d];
        }
        rest := rest - {domainName};
      }
    }

    /** The number of cached domains. */
    function NumberOfCachedDomainNames(): (n: nat)
      reads this
      ensures n == |cache.Keys|
    {
      |cache|
    }

    /** `getNumberOfCachedExceptions`: counts the error entries. */
    method NumberOfCachedExceptions() returns (n: nat)
      ensures n == |set d | d in cache && cache[d].Failure?|
    {
      n := 0;
      var rest := cache.Keys;
      while rest != {}
        invariant rest <= cache.Keys
        invariant n == |set d | d in cache.Keys - rest && cache[d].Failure?|
        decreases |rest|
      {
        var d :| d in rest;
        ghost var seen := set e | e in cache.Keys - rest && cache[e].Failure?;
        if cache[d].Failure? {
          assert (set e | e in cache.Keys - (rest - {d}) && cache[e].Failure?) == seen + {d};
          n := n + 1;
        } else {
          assert (set e | e in cache.Keys - (rest - {d}) && cache[e].Failure?) == seen;
        }
        rest := rest - {d};
      }
      assert cache.Keys - rest == cache.Keys;
    }

    /**
     * The domain names whose entries are successes (or errors): each such
     * domain exactly once, in the map's iteration order.
     */
    method DomainNamesWhere(successful: bool) returns (names: seq<string>)
      ensures forall i, j :: 0 <= i < j < |names| ==> names[i] != names[j]
      ensures forall d :: d in names <==> d in cache && cache[d].Success? == successful
      ensures |names| == |set d | d in cache && cache[d].Success? == successful|
    {
      names := [];
      var rest := cache.Keys;
      while rest != {}
        invariant rest <= cache.Keys
        invariant forall i, j :: 0 <= i < j < |names| ==> names[i] != names[j]
        invariant forall d :: d in names <==> d in cache.Keys - rest && cache[d].Success? == successful
        decreases |rest|
      {
        var d :| d in rest;
        if cache[d].Success? == successful {
          names := names + [d];
        }
        rest := rest - {d};
      }
      DistinctCount(names, set d | d in cache && cache[d].Success? == successful);
    }

    /** `getAllCachedDomainNames`: every cached domain. */
    function AllCachedDomainNames(): (names: set<string>)
      reads this
      ensures forall d :: d in names <==> d in cache
    {
      cache.Keys
    }
  }

  lemma {:induction false} DistinctCount<T>(s: seq<T>, elems: set<T>)
    requires forall i, j :: 0 <= i < j < |s| ==> s[i] != s[j]
    requires forall x :: x in s <==> x in elems
    ensures |s| == |elems|
  {
    if s != [] {
      var last := s[|s| - 1];
      var init := s[..|s| - 1];
      forall x | x in init ensures x in elems - {last} {
        var k :| 0 <= k < |init| && init[k] == x;
        assert s[k] == x;
      }
      forall x | x in elems - {last} ensures x in init {
        var k :| 0 <= k < |s| && s[k] == x;
        assert k != |s| - 1;
        assert init[k] == x;
      }
      DistinctCount(init, elems - {last});
    } else {
      assert forall x :: x !in elems;
      assert elems == {};
    }
  }

  lemma DrainedStep(expirations: map<int, set<string>>, lo: int, i: int)
    requires lo <= i
    ensures Drained(expirations, lo, i) == Drained(expirations, lo, i - 1) + (if i in expirations then expirations[i] else {})
    decreases i - lo
  {
    if lo < i {
      DrainedStep(expirations, lo + 1, i);
    }
  }

  lemma RemoveOneMore(expirations: map<int, set<string>>, lo: int, i: int)
    requires lo <= i
    ensures var r := RemoveBuckets(expirations, lo, i - 1);
            RemoveBuckets(expirations, lo, i) == map j | j in r && j != i :: r[j]
  {
  }
}
