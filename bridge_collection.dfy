/** Bridge discovery, testing, caching and prioritisation
    (src/bridge/collector.rs). Times are whole seconds since the epoch,
    passed in as `now`; connection probes and the Moat reply are inputs. */
module BridgeCollection {
  import opened Wrappers
  import opened Decimal
  import opened Errors
  import opened Bridges
  import opened BridgeStorage
  import opened Probes

  const SECONDS_PER_DAY: nat := 86400
  /** Days over which a recent success earns a bonus. */
  const RECENCY_DAYS: nat := 7
  /** Bonus points per remaining day. */
  const BONUS_PER_DAY: real := 5.0

  /** Test history of one bridge, keyed by `address:port`. */
  datatype BridgeMetadata = BridgeMetadata(
    successCount: nat,
    failureCount: nat,
    lastTested: Option<nat>,
    lastSuccess: Option<nat>)

  /** `BridgeMetadata::new`. */
  const NEW_METADATA := BridgeMetadata(0, 0, None, None)

  /** `success_rate`: the percentage of successful tests, 0 before any. */
  function SuccessRate(m: BridgeMetadata): (r: real)
    ensures 0.0 <= r <= 100.0
    ensures m.successCount + m.failureCount == 0 ==> r == 0.0
    ensures m.successCount + m.failureCount > 0 ==>
      r * (m.successCount + m.failureCount) as real == 100.0 * m.successCount as real
  {
    var total := m.successCount + m.failureCount;
    if total == 0 then 0.0
    else
      var r := (m.successCount as real / total as real) * 100.0;
      assert m.successCount as real / total as real <= 1.0;
      r
  }

  /** `record_success` at time `now`. */
  function RecordSuccess(m: BridgeMetadata, now: nat): (r: BridgeMetadata)
    ensures r.successCount + r.failureCount == m.successCount + m.failureCount + 1
    ensures r.failureCount == m.failureCount
    ensures r.lastTested == r.lastSuccess == Some(now)
  {
    m.(successCount := m.successCount + 1, lastSuccess := Some(now), lastTested := Some(now))
  }

  /** `record_failure` at time `now`. */
  function RecordFailure(m: BridgeMetadata, now: nat): (r: BridgeMetadata)
    ensures r.successCount + r.failureCount == m.successCount + m.failureCount + 1
    ensures r.successCount == m.successCount
    ensures r.lastTested == Some(now) && r.lastSuccess == m.lastSuccess
  {
    m.(failureCount := m.failureCount + 1, lastTested := Some(now))
  }

  /** The cache and metadata key, `format!("{}:{}", address, port)`. */
  function Key(b: Bridge): string {
    b.address + ":" + NatToString(b.port)
  }

  /** The keys of a sequence of bridges. */
  function KeySet(bs: seq<Bridge>): set<string>
  {
    if bs == [] then {} else KeySet(bs[..|bs| - 1]) + {Key(bs[|bs| - 1])}
  }

  /** The first bridge with each key, in input order: the reference for the
      de-duplication in `collect_bridges`. */
  function KeepFirst(bs: seq<Bridge>): seq<Bridge>
  {
    if bs == [] then []
    else
      var init := bs[..|bs| - 1];
      var b := bs[|bs| - 1];
      KeepFirst(init) + (if Key(b) in KeySet(init) then [] else [b])
  }

  /** An item of the `bridges` array of a Moat reply: a JSON string or some
      other JSON value. */
  datatype MoatItem = Text(line: string) | NotText

  /** The bridges that parse among the string items; the rest are skipped. */
  function ParseMoatItems(items: seq<MoatItem>): (r: seq<Bridge>)
    ensures |r| <= |items|
    ensures forall i :: 0 <= i < |r| ==> WellFormed(r[i])
  {
    if items == [] then []
    else
      var rest := ParseMoatItems(items[1..]);
      match items[0]
      case NotText => rest
      case Text(line) =>
        match FromStr(line)
        case Ok(b) => [b] + rest
        case Err(_) => rest
  }

  /** `fetch_from_moat_api` given how the request ended: an error (client,
      transport, HTTP status or JSON decoding), or the decoded reply's
      `bridges` array, `None` when the reply has none. */
  function FetchFromMoatApi(reply: TorrerResult<Option<seq<MoatItem>>>): (r: TorrerResult<seq<Bridge>>)
    ensures r.Err? <==> reply.Err?
    ensures r.Ok? && reply.value.None? ==> r.value == []
    ensures r.Ok? && reply.value.Some? ==> r.value == ParseMoatItems(reply.value.value)
  {
    match reply
    case Err(e) => Err(e)
    case Ok(None) => Ok([])
    case Ok(Some(items)) => Ok(ParseMoatItems(items))
  }

  /** `fetch_from_public_sources`: a placeholder that finds nothing. */
  function FetchFromPublicSources(): (r: TorrerResult<seq<Bridge>>)
    ensures r == Ok([])
  {
    Ok([])
  }

  /** The bridges both sources contribute before de-duplication; a failed
      source contributes nothing. */
  function Candidates(moat: TorrerResult<seq<Bridge>>, public: TorrerResult<seq<Bridge>>): seq<Bridge> {
    (if moat.Ok? then moat.value else []) + (if public.Ok? then public.value else [])
  }

  /** The recency bonus: five points per day under seven since the last
      success; a last success in the future counts as just now. */
  function RecencyBonus(m: BridgeMetadata, now: nat): (r: real)
    ensures 0.0 <= r <= RECENCY_DAYS as real * BONUS_PER_DAY
  {
    match m.lastSuccess
    case None => 0.0
    case Some(t) =>
      var age := if now >= t then now - t else 0;
      var days := age / SECONDS_PER_DAY;
      if days < RECENCY_DAYS then (RECENCY_DAYS - days) as real * BONUS_PER_DAY else 0.0
  }

  function Score(m: BridgeMetadata, now: nat): real {
    SuccessRate(m) + RecencyBonus(m, now)
  }

  /** Scores sorted from highest to lowest. */
  predicate SortedByScore(xs: seq<(string, real)>) {
    forall i, j :: 0 <= i < j < |xs| ==> xs[i].1 >= xs[j].1
  }

  function Firsts(xs: seq<(string, real)>): set<string> {
    set i | 0 <= i < |xs| :: xs[i].0
  }

  /** Every entry pairs a metadata key with that entry's score. */
  predicate ScoredEntries(xs: seq<(string, real)>, meta: map<string, BridgeMetadata>, now: nat) {
    forall i :: 0 <= i < |xs| ==> xs[i].0 in meta && xs[i].1 == Score(meta[xs[i].0], now)
  }

  /** Places `x` after every entry scoring at least as much, keeping the
      order of equal scores as `sort_by` (a stable sort) does. */
  function InsertByScore(xs: seq<(string, real)>, x: (string, real)): (r: seq<(string, real)>)
    requires SortedByScore(xs)
    ensures |r| == |xs| + 1
    ensures r[0] == if xs != [] && xs[0].1 >= x.1 then xs[0] else x
    ensures SortedByScore(r)
    ensures multiset(r) == multiset(xs) + multiset{x}
  {
    if xs == [] then [x]
    else if xs[0].1 >= x.1 then
      SortedTail(xs);
      var rest := InsertByScore(xs[1..], x);
      assert xs == [xs[0]] + xs[1..];
      assert xs[0].1 >= rest[0].1;
      SortedCons(xs[0], rest);
      [xs[0]] + rest
    else
      SortedCons(x, xs);
      [x] + xs
  }

  lemma SortedTail(xs: seq<(string, real)>)
    requires SortedByScore(xs) && xs != []
    ensures SortedByScore(xs[1..])
  {
    forall i, j | 0 <= i < j < |xs| - 1 ensures xs[1..][i].1 >= xs[1..][j].1 {
      assert xs[1..][i] == xs[i + 1] && xs[1..][j] == xs[j + 1];
    }
  }

  lemma SortedCons(a: (string, real), xs: seq<(string, real)>)
    requires SortedByScore(xs) && (xs != [] ==> a.1 >= xs[0].1)
    ensures SortedByScore([a] + xs)
  {
    var r := [a] + xs;
    forall i, j | 0 <= i < j < |r| ensures r[i].1 >= r[j].1 {
      if i == 0 && j > 1 {
        assert xs[0].1 >= xs[j - 1].1;
      }
    }
  }

  /** One probe's effect on the metadata map: a reachable bridge records a
      success, an unreachable one (or a probe error) a failure. */
  function RecordProbe(meta: map<string, BridgeMetadata>, key: string, reachable: bool, now: nat): map<string, BridgeMetadata> {
    var m := if key in meta then meta[key] else NEW_METADATA;
    meta[key := if reachable then RecordSuccess(m, now) else RecordFailure(m, now)]
  }

  /** The metadata after probing the first `n` bridges of `bs`, in order,
      with the given outcomes. */
  function RecordProbes(meta: map<string, BridgeMetadata>, bs: seq<Bridge>, outcomes: seq<ConnectOutcome>, n: nat, now: nat): map<string, BridgeMetadata>
    requires n <= |bs| == |outcomes|
  {
    if n == 0 then meta
    else RecordProbe(RecordProbes(meta, bs, outcomes, n - 1, now), Key(bs[n - 1]), outcomes[n - 1] == Connected, now)
  }

  lemma RecordProbesStep(meta: map<string, BridgeMetadata>, bs: seq<Bridge>, outcomes: seq<ConnectOutcome>, n: nat, now: nat)
    requires n < |bs| == |outcomes|
    ensures RecordProbes(meta, bs, outcomes, n + 1, now)
      == RecordProbe(RecordProbes(meta, bs, outcomes, n, now), Key(bs[n]), outcomes[n] == Connected, now)
  {
  }

  /** The keys of those among the first `n` bridges whose probe connected. */
  function ReachableKeys(bs: seq<Bridge>, outcomes: seq<ConnectOutcome>, n: nat): set<string>
    requires n <= |bs| == |outcomes|
  {
    if n == 0 then {}
    else ReachableKeys(bs, outcomes, n - 1) + (if outcomes[n - 1] == Connected then {Key(bs[n - 1])} else {})
  }

  /** Each key in `ReachableKeys` belongs to a bridge whose probe connected. */
  lemma {:induction false} ReachableKeysWitness(bs: seq<Bridge>, outcomes: seq<ConnectOutcome>, n: nat, k: string)
    requires n <= |bs| == |outcomes| && k in ReachableKeys(bs, outcomes, n)
    ensures exists j :: 0 <= j < n && Key(bs[j]) == k && outcomes[j] == Connected
  {
    if k in ReachableKeys(bs, outcomes, n - 1) {
      ReachableKeysWitness(bs, outcomes, n - 1, k);
    }
  }

  /** What caching works on: the collector's cache and the bridge file. */
  datatype Caching = Caching(cache: set<string>, file: TextFile)

  /** One bridge offered to the cache: a bridge whose key is not cached is
      added to the store with `add_bridge`, and its key cached when the add
      succeeds. */
  function CacheStep(c: Caching, b: Bridge, w: WriteOutcome): Caching {
    if Key(b) in c.cache then c
    else
      var added := AddSpec(c.file, b, w);
      Caching(if added.result.Ok? then c.cache + {Key(b)} else c.cache, added.file)
  }

  /** The first `n` bridges offered in order, the `i`-th save meeting
      `writes[i]`: the reference for `cache_bridges`. */
  function CacheUpTo(c: Caching, bs: seq<Bridge>, writes: seq<WriteOutcome>, n: nat): Caching
    requires n <= |bs| == |writes|
  {
    if n == 0 then c else CacheStep(CacheUpTo(c, bs, writes, n - 1), bs[n - 1], writes[n - 1])
  }

  /** The first `n` bridges probed in order, only those whose probe
      connected offered to the cache: the reference for
      `test_and_cache_bridges`. */
  function ProbeCacheUpTo(c: Caching, bs: seq<Bridge>, outcomes: seq<ConnectOutcome>, writes: seq<WriteOutcome>, n: nat): Caching
    requires n <= |bs| == |outcomes| == |writes|
  {
    if n == 0 then c
    else
      var before := ProbeCacheUpTo(c, bs, outcomes, writes, n - 1);
      if outcomes[n - 1] == Connected then CacheStep(before, bs[n - 1], writes[n - 1]) else before
  }

  class BridgeCollector {
    const manager: BridgeManager
    /** Keys of the bridges this collector has added to the store. */
    var cache: set<string>
    var metadata: map<string, BridgeMetadata>

    /** `BridgeCollector::new`: empty cache and metadata. */
    constructor(manager: BridgeManager)
      ensures this.manager == manager && cache == {} && metadata == map[]
    {
      this.manager := manager;
      cache := {};
      metadata := map[];
    }

    /** `collect_bridges`: the Moat and public-source results merged, keeping
        the first bridge per `address:port`. Never fails. */
    method CollectBridges(moatReply: TorrerResult<Option<seq<MoatItem>>>) returns (r: TorrerResult<seq<Bridge>>)
      ensures r.Ok?
      ensures r.value == KeepFirst(Candidates(FetchFromMoatApi(moatReply), FetchFromPublicSources()))
    {
      var all: seq<Bridge> := [];
      var moat := FetchFromMoatApi(moatReply);
      if moat.Ok? {
        all := all + moat.value;
      }
      var public := FetchFromPublicSources();
      if public.Ok? {
        all := all + public.value;
      }
      assert all == Candidates(moat, public);
      var unique := DedupByKey(all);
      r := Ok(unique);
    }

    /** `collect_bridges_safe`: a collection failure becomes an empty list. */
    method CollectBridgesSafe(moatReply: TorrerResult<Option<seq<MoatItem>>>) returns (r: TorrerResult<seq<Bridge>>)
      ensures r.Ok?
      ensures r.value == KeepFirst(Candidates(FetchFromMoatApi(moatReply), FetchFromPublicSources()))
    {
      var collected := CollectBridges(moatReply);
      match collected {
        case Ok(bs) => r := Ok(bs);
        case Err(_) => r := Ok([]);
      }
    }

    /** The cache and the bridge file. */
    function Cached(): Caching
      reads this, manager
    {
      Caching(cache, manager.file)
    }

    /** The step both loops share. */
    method CacheOne(bridge: Bridge, w: WriteOutcome) returns (cached: bool)
      modifies this, manager
      ensures Cached() == CacheStep(old(Cached()), bridge, w)
      ensures cached <==> Key(bridge) !in old(cache) && AddSpec(old(manager.file), bridge, w).result.Ok?
      ensures metadata == old(metadata)
    {
      cached := false;
      var key := Key(bridge);
      if key !in cache {
        var added := manager.AddBridge(bridge, w);
        if added.Ok? {
          cache := cache + {key};
          cached := true;
        }
      }
    }

    /** One round of `test_and_cache_bridges`: the probe, the caching of a
        reachable bridge, and the metadata update. */
    method TestAndCacheOne(bridge: Bridge, outcome: ConnectOutcome, w: WriteOutcome, now: nat) returns (cached: bool)
      modifies this, manager
      ensures Cached() == if outcome == Connected then CacheStep(old(Cached()), bridge, w) else old(Cached())
      ensures cached <==> outcome == Connected && Key(bridge) !in old(cache) && AddSpec(old(manager.file), bridge, w).result.Ok?
      ensures metadata == RecordProbe(old(metadata), Key(bridge), outcome == Connected, now)
    {
      cached := false;
      var key := Key(bridge);
      var probe := TestBridge(outcome);
      if probe.Ok? && probe.value {
        cached := CacheOne(bridge, w);
        metadata := RecordProbe(metadata, key, true, now);
      } else {
        metadata := RecordProbe(metadata, key, false, now);
      }
    }

    /** The loop invariant of `test_and_cache_bridges` after `i` rounds,
        from the cache, bridge file and metadata it started with. */
    ghost predicate ProbedUpTo(bridges: seq<Bridge>, outcomes: seq<ConnectOutcome>, writes: seq<WriteOutcome>, i: nat, now: nat,
                               successful: nat, c0: Caching, meta0: map<string, BridgeMetadata>)
      requires i <= |bridges| == |outcomes| == |writes|
      reads this, manager
    {
      && Cached() == ProbeCacheUpTo(c0, bridges, outcomes, writes, i)
      && metadata == RecordProbes(meta0, bridges, outcomes, i, now)
      && c0.cache <= cache
      && successful == |cache - c0.cache|
    }

    /** Round `i` of the `test_and_cache_bridges` loop keeps its invariant. */
    method TestAndCacheStep(bridges: seq<Bridge>, outcomes: seq<ConnectOutcome>, writes: seq<WriteOutcome>, i: nat, now: nat,
                            successful: nat, ghost c0: Caching, ghost meta0: map<string, BridgeMetadata>)
      returns (successful': nat)
      requires i < |bridges| == |outcomes| == |writes|
      requires ProbedUpTo(bridges, outcomes, writes, i, now, successful, c0, meta0)
      modifies this, manager
      ensures ProbedUpTo(bridges, outcomes, writes, i + 1, now, successful', c0, meta0)
    {
      ghost var before := cache;
      var cached := TestAndCacheOne(bridges[i], outcomes[i], writes[i], now);
      RecordProbesStep(meta0, bridges, outcomes, i, now);
      successful' := successful;
      if cached {
        CacheGrows(before, c0.cache, Key(bridges[i]));
        successful' := successful + 1;
      }
    }

    /** `test_and_cache_bridges`: probes every bridge once, in order, the
        `i`-th add meeting `writes[i]`. A reachable bridge whose key is not
        cached is added to the store, and its key is cached and counted only
        when the add succeeds. Every probe updates the metadata. The result
        counts the newly cached keys. */
    method TestAndCacheBridges(bridges: seq<Bridge>, outcomes: seq<ConnectOutcome>, writes: seq<WriteOutcome>, now: nat)
      returns (r: TorrerResult<nat>)
      requires |outcomes| == |bridges| == |writes|
      modifies this, manager
      ensures Cached() == ProbeCacheUpTo(old(Cached()), bridges, outcomes, writes, |bridges|)
      ensures r == Ok(|cache - old(cache)|)
      ensures metadata == RecordProbes(old(metadata), bridges, outcomes, |bridges|, now)
    {
      var successful := 0;
      ghost var c0, meta0 := Cached(), metadata;
      assert cache - c0.cache == {};
      for i := 0 to |bridges|
        invariant ProbedUpTo(bridges, outcomes, writes, i, now, successful, c0, meta0)
      {
        successful := TestAndCacheStep(bridges, outcomes, writes, i, now, successful, c0, meta0);
      }
      r := Ok(successful);
    }

    /** `cache_bridges`: offers every bridge to the cache, in order, the
        `i`-th add meeting `writes[i]`; metadata is untouched. */
    method CacheBridges(bridges: seq<Bridge>, writes: seq<WriteOutcome>) returns (r: TorrerResult<Unit>)
      requires |writes| == |bridges|
      modifies this, manager
      ensures r.Ok?
      ensures Cached() == CacheUpTo(old(Cached()), bridges, writes, |bridges|)
      ensures metadata == old(metadata)
    {
      for i := 0 to |bridges|
        invariant Cached() == CacheUpTo(old(Cached()), bridges, writes, i)
        invariant metadata == old(metadata)
      {
        var _ := CacheOne(bridges[i], writes[i]);
      }
      r := Ok(Unit);
    }

    /** `get_prioritized_bridges`: one `(key, score)` per metadata entry, in
        some order of the keys, then sorted by score from highest to lowest. */
    method GetPrioritizedBridges(now: nat) returns (r: seq<(string, real)>)
      ensures |r| == |metadata|
      ensures Firsts(r) == metadata.Keys
      ensures ScoredEntries(r, metadata, now)
      ensures SortedByScore(r)
    {
      r := [];
      var remaining := metadata.Keys;
      while remaining != {}
        invariant remaining <= metadata.Keys
        invariant |r| + |remaining| == |metadata|
        invariant Firsts(r) == metadata.Keys - remaining
        invariant ScoredEntries(r, metadata, now)
        invariant SortedByScore(r)
        decreases |remaining|
      {
        var key :| key in remaining;
        var entry := (key, Score(metadata[key], now));
        InsertScored(r, entry, metadata, now);
        r := InsertByScore(r, entry);
        remaining := remaining - {key};
      }
    }

    /** `get_cached`. */
    function GetCached(): (keys: set<string>)
      reads this
      ensures keys == cache
    {
      cache
    }
  }

  /** The de-duplication loop of `collect_bridges`, with its `seen` set. */
  method DedupByKey(all: seq<Bridge>) returns (unique: seq<Bridge>)
    ensures unique == KeepFirst(all)
  {
    unique := [];
    var seen: set<string> := {};
    for i := 0 to |all|
      invariant unique == KeepFirst(all[..i])
      invariant seen == KeySet(all[..i])
    {
      var key := Key(all[i]);
      KeepFirstSnoc(all[..i], all[i]);
      assert all[..i + 1] == all[..i] + [all[i]];
      if key !in seen {
        seen := seen + {key};
        unique := unique + [all[i]];
      }
    }
    assert all[..|all|] == all;
  }

  // ---------------------------------------------------------------- lemmas

  lemma CacheGrows(cache: set<string>, initial: set<string>, key: string)
    requires key !in cache && initial <= cache
    ensures |(cache + {key}) - initial| == |cache - initial| + 1
  {
    assert (cache + {key}) - initial == (cache - initial) + {key};
  }

  /** One more bridge is kept exactly when its key is new. */
  lemma KeepFirstSnoc(bs: seq<Bridge>, b: Bridge)
    ensures KeepFirst(bs + [b]) == KeepFirst(bs) + (if Key(b) in KeySet(bs) then [] else [b])
    ensures KeySet(bs + [b]) == KeySet(bs) + {Key(b)}
  {
    assert (bs + [b])[..|bs|] == bs;
  }

  lemma KeySetLast(bs: seq<Bridge>)
    requires bs != []
    ensures KeySet(bs) == KeySet(bs[..|bs| - 1]) + {Key(bs[|bs| - 1])}
  {
  }

  /** Each entry of the insertion's result is an old entry or the new one. */
  lemma InsertMembers(xs: seq<(string, real)>, x: (string, real), r: seq<(string, real)>)
    requires SortedByScore(xs) && r == InsertByScore(xs, x)
    ensures forall i :: 0 <= i < |r| ==> r[i] in xs || r[i] == x
  {
    forall i | 0 <= i < |r| ensures r[i] in xs || r[i] == x {
      assert r[i] in multiset(r);
    }
  }

  /** ... and every old entry, and the new one, is in the result. */
  lemma InsertKeeps(xs: seq<(string, real)>, x: (string, real), r: seq<(string, real)>)
    requires SortedByScore(xs) && r == InsertByScore(xs, x)
    ensures x in r
    ensures forall i :: 0 <= i < |xs| ==> xs[i] in r
  {
    assert x in multiset(r);
    forall i | 0 <= i < |xs| ensures xs[i] in r {
      assert xs[i] in multiset(r);
    }
  }

  lemma InsertFacts(xs: seq<(string, real)>, x: (string, real), r: seq<(string, real)>)
    requires SortedByScore(xs) && r == InsertByScore(xs, x)
    ensures |r| == |xs| + 1
    ensures Firsts(r) == Firsts(xs) + {x.0}
    ensures forall i :: 0 <= i < |r| ==> r[i] in xs || r[i] == x
  {
    InsertMembers(xs, x, r);
    InsertKeeps(xs, x, r);
    forall k | k in Firsts(xs) + {x.0} ensures k in Firsts(r) {
      if k in Firsts(xs) {
        var i :| 0 <= i < |xs| && xs[i].0 == k;
        var j :| 0 <= j < |r| && r[j] == xs[i];
      } else {
        var j :| 0 <= j < |r| && r[j] == x;
      }
    }
    forall k | k in Firsts(r) ensures k in Firsts(xs) + {x.0} {
      var j :| 0 <= j < |r| && r[j].0 == k;
      if r[j] != x {
        var i :| 0 <= i < |xs| && xs[i] == r[j];
      }
    }
  }

  lemma InsertScored(xs: seq<(string, real)>, x: (string, real), meta: map<string, BridgeMetadata>, now: nat)
    requires SortedByScore(xs) && ScoredEntries(xs, meta, now)
    requires x.0 in meta && x.1 == Score(meta[x.0], now)
    ensures |InsertByScore(xs, x)| == |xs| + 1
    ensures Firsts(InsertByScore(xs, x)) == Firsts(xs) + {x.0}
    ensures ScoredEntries(InsertByScore(xs, x), meta, now)
    ensures SortedByScore(InsertByScore(xs, x))
  {
    var r := InsertByScore(xs, x);
    InsertFacts(xs, x, r);
    forall i | 0 <= i < |r| ensures r[i].0 in meta && r[i].1 == Score(meta[r[i].0], now) {
      if r[i] != x {
        var j :| 0 <= j < |xs| && xs[j] == r[i];
      }
    }
  }

  /** Every kept bridge comes from the input, and no two share a key. */
  lemma {:induction false} KeepFirstUnique(bs: seq<Bridge>)
    ensures forall i :: 0 <= i < |KeepFirst(bs)| ==> KeepFirst(bs)[i] in bs
    ensures forall i, j :: 0 <= i < j < |KeepFirst(bs)| ==> Key(KeepFirst(bs)[i]) != Key(KeepFirst(bs)[j])
    ensures KeySet(KeepFirst(bs)) == KeySet(bs)
  {
    if bs != [] {
      var init := bs[..|bs| - 1];
      var b := bs[|bs| - 1];
      KeepFirstUnique(init);
      var k := KeepFirst(init);
      var r := KeepFirst(bs);
      assert forall e :: e in init ==> e in bs;
      if Key(b) !in KeySet(init) {
        assert r == k + [b];
        assert r[..|r| - 1] == k;
        forall i | 0 <= i < |k| ensures Key(k[i]) != Key(b) {
          KeyInKeySet(k, i);
        }
        assert KeySet(r) == KeySet(k) + {Key(b)};
      } else {
        assert r == k;
      }
    }
  }

  lemma {:induction false} KeyInKeySet(bs: seq<Bridge>, i: nat)
    requires i < |bs|
    ensures Key(bs[i]) in KeySet(bs)
  {
    if i < |bs| - 1 {
      KeyInKeySet(bs[..|bs| - 1], i);
    }
  }

  /** Input whose keys are already distinct passes through unchanged. */
  lemma {:induction false} KeepFirstDistinct(bs: seq<Bridge>)
    requires forall i, j :: 0 <= i < j < |bs| ==> Key(bs[i]) != Key(bs[j])
    ensures KeepFirst(bs) == bs
  {
    if bs != [] {
      var init := bs[..|bs| - 1];
      var b := bs[|bs| - 1];
      assert KeepFirst(init) == init by {
        assert forall i :: 0 <= i < |init| ==> init[i] == bs[i];
        KeepFirstDistinct(init);
      }
      assert Key(b) !in KeySet(init) by {
        forall i | 0 <= i < |init| ensures Key(init[i]) != Key(b) {
          assert init[i] == bs[i];
        }
        KeySetMembers(init);
      }
      assert bs == init + [b];
    }
  }

  lemma {:induction false} KeySetMembers(bs: seq<Bridge>)
    ensures forall k :: k in KeySet(bs) ==> exists i :: 0 <= i < |bs| && Key(bs[i]) == k
  {
    if bs != [] {
      KeySetMembers(bs[..|bs| - 1]);
    }
  }

  /** De-duplication is idempotent. */
  lemma KeepFirstIdempotent(bs: seq<Bridge>)
    ensures KeepFirst(KeepFirst(bs)) == KeepFirst(bs)
  {
    KeepFirstUnique(bs);
    KeepFirstDistinct(KeepFirst(bs));
  }

  lemma NonNegativeFactor(a: real, p: real)
    requires p > 0.0 && a * p >= 0.0
    ensures a >= 0.0
  {
  }

  /** The rate after a success is at least the rate before. */
  lemma SuccessRaisesRate(m: BridgeMetadata, now: nat)
    ensures SuccessRate(RecordSuccess(m, now)) >= SuccessRate(m)
  {
    var s, f := m.successCount as real, m.failureCount as real;
    var t := s + f;
    if t > 0.0 {
      var before, after := SuccessRate(m), SuccessRate(RecordSuccess(m, now));
      assert before * t == 100.0 * s;
      assert after * (t + 1.0) == 100.0 * (s + 1.0);
      assert (after - before) * (t * (t + 1.0)) == 100.0 * f;
      NonNegativeFactor(after - before, t * (t + 1.0));
    }
  }

  /** The rate after a failure is at most the rate before. */
  lemma FailureLowersRate(m: BridgeMetadata, now: nat)
    ensures SuccessRate(RecordFailure(m, now)) <= SuccessRate(m)
  {
    var s, f := m.successCount as real, m.failureCount as real;
    var t := s + f;
    if t > 0.0 {
      var before, after := SuccessRate(m), SuccessRate(RecordFailure(m, now));
      assert before * t == 100.0 * s;
      assert after * (t + 1.0) == 100.0 * s;
      assert (before - after) * (t * (t + 1.0)) == 100.0 * s;
      NonNegativeFactor(before - after, t * (t + 1.0));
    }
  }

  /** Nine successes and one failure give a rate of 90. */
  lemma NinetyPercent()
    ensures SuccessRate(BridgeMetadata(9, 1, None, None)) == 90.0
  {
  }

  /** A success records the time as both last test and last success, and
      changes no failure count; a failure changes only its count and the
      last test. */
  lemma RecordFields(m: BridgeMetadata, now: nat)
    ensures RecordSuccess(m, now).successCount == m.successCount + 1
    ensures RecordSuccess(m, now).failureCount == m.failureCount
    ensures RecordSuccess(m, now).lastSuccess == RecordSuccess(m, now).lastTested == Some(now)
    ensures RecordFailure(m, now).failureCount == m.failureCount + 1
    ensures RecordFailure(m, now).successCount == m.successCount
    ensures RecordFailure(m, now).lastSuccess == m.lastSuccess
    ensures RecordFailure(m, now).lastTested == Some(now)
  {
  }

  /** The score is the rate plus a bonus that is 35 for a success less than
      a day old and zero once it is seven days old. */
  lemma ScoreBounds(m: BridgeMetadata, now: nat)
    ensures SuccessRate(m) <= Score(m, now) <= SuccessRate(m) + 35.0
    ensures m.lastSuccess.Some? && m.lastSuccess.value <= now < m.lastSuccess.value + SECONDS_PER_DAY
      ==> Score(m, now) == SuccessRate(m) + 35.0
    ensures m.lastSuccess.Some? && now >= m.lastSuccess.value + RECENCY_DAYS * SECONDS_PER_DAY
      ==> Score(m, now) == SuccessRate(m)
    ensures m.lastSuccess.Some? && now < m.lastSuccess.value ==> Score(m, now) == SuccessRate(m) + 35.0
  {
    if m.lastSuccess.Some? && now >= m.lastSuccess.value + RECENCY_DAYS * SECONDS_PER_DAY {
      var age := now - m.lastSuccess.value;
      assert age / SECONDS_PER_DAY >= RECENCY_DAYS;
    }
  }

  /** Probing keeps a metadata entry for every probed key; other entries are
      unchanged. */
  lemma {:induction false} RecordProbesKeys(meta: map<string, BridgeMetadata>, bs: seq<Bridge>, outcomes: seq<ConnectOutcome>, now: nat)
    requires |outcomes| == |bs|
    ensures RecordProbes(meta, bs, outcomes, |bs|, now).Keys == meta.Keys + KeySet(bs)
    ensures forall k :: k in meta && k !in KeySet(bs) ==> RecordProbes(meta, bs, outcomes, |bs|, now)[k] == meta[k]
  {
    if bs != [] {
      var n := |bs| - 1;
      RecordProbesKeys(meta, bs[..n], outcomes[..n], now);
      RecordProbesPrefix(meta, bs, outcomes, n, now);
    }
  }

  /** Probing the first `n` bridges depends only on those bridges. */
  lemma {:induction false} RecordProbesPrefix(meta: map<string, BridgeMetadata>, bs: seq<Bridge>, outcomes: seq<ConnectOutcome>, m: nat, now: nat)
    requires m <= |bs| == |outcomes|
    ensures RecordProbes(meta, bs[..m], outcomes[..m], m, now) == RecordProbes(meta, bs, outcomes, m, now)
  {
    SamePrefixProbes(meta, bs[..m], outcomes[..m], bs, outcomes, m, now);
  }

  lemma {:induction false} SamePrefixProbes(meta: map<string, BridgeMetadata>, bs: seq<Bridge>, os: seq<ConnectOutcome>,
                                            bs': seq<Bridge>, os': seq<ConnectOutcome>, n: nat, now: nat)
    requires n <= |bs| == |os| && n <= |bs'| == |os'|
    requires bs[..n] == bs'[..n] && os[..n] == os'[..n]
    ensures RecordProbes(meta, bs, os, n, now) == RecordProbes(meta, bs', os', n, now)
  {
    if n > 0 {
      assert bs[n - 1] == bs[..n][n - 1] && bs'[n - 1] == bs'[..n][n - 1];
      assert os[n - 1] == os[..n][n - 1] && os'[n - 1] == os'[..n][n - 1];
      assert bs[..n - 1] == bs[..n][..n - 1] && bs'[..n - 1] == bs'[..n][..n - 1];
      assert os[..n - 1] == os[..n][..n - 1] && os'[..n - 1] == os'[..n][..n - 1];
      SamePrefixProbes(meta, bs, os, bs', os', n - 1, now);
    }
  }

  /** A bridge is newly cached exactly when its key was not cached, it
      validates, the bridge file reads, no listed bridge has its address
      and port, and its save writes every line; a well-formed one is then
      listed last. Nothing else enters the cache, and an offer that
      caches nothing changes the file only by a failed save. */
  lemma CacheStepOutcome(c: Caching, b: Bridge, w: WriteOutcome)
    ensures c.cache <= CacheStep(c, b, w).cache <= c.cache + {Key(b)}
    ensures Key(b) in CacheStep(c, b, w).cache - c.cache <==>
      Key(b) !in c.cache && Validate(b).Ok? && ListBridgesOf(c.file).Ok?
      && !HasEndpoint(ListBridgesOf(c.file).value, b.address, b.port)
      && SaveSucceeds(ListBridgesOf(c.file).value + [b], w)
    ensures Key(b) in CacheStep(c, b, w).cache - c.cache && WellFormed(b) ==>
      ListBridgesOf(CacheStep(c, b, w).file) == Ok(ListBridgesOf(c.file).value + [b])
    ensures Key(b) in c.cache ==> CacheStep(c, b, w) == c
    ensures CacheStep(c, b, w).cache == c.cache && CacheStep(c, b, w).file != c.file ==>
      w.WriteFailed? && w.line <= |ListBridgesOf(c.file).value| + 1
  {
    AddOutcome(c.file, b, w);
  }

  /** `test_and_cache_bridges` only ever adds keys, each that of a bridge
      whose probe connected, and at most one per bridge. */
  lemma {:induction false} ProbeCacheGrows(c: Caching, bs: seq<Bridge>, outcomes: seq<ConnectOutcome>, writes: seq<WriteOutcome>, n: nat)
    requires n <= |bs| == |outcomes| == |writes|
    ensures c.cache <= ProbeCacheUpTo(c, bs, outcomes, writes, n).cache
    ensures ProbeCacheUpTo(c, bs, outcomes, writes, n).cache - c.cache <= ReachableKeys(bs, outcomes, n)
    ensures |ProbeCacheUpTo(c, bs, outcomes, writes, n).cache - c.cache| <= n
  {
    if n > 0 {
      var before := ProbeCacheUpTo(c, bs, outcomes, writes, n - 1);
      ProbeCacheGrows(c, bs, outcomes, writes, n - 1);
      var after := ProbeCacheUpTo(c, bs, outcomes, writes, n);
      if outcomes[n - 1] == Connected {
        CacheStepOutcome(before, bs[n - 1], writes[n - 1]);
        SubsetCardinality(after.cache - c.cache, (before.cache - c.cache) + {Key(bs[n - 1])});
      }
    }
  }

  /** `cache_bridges` only ever adds keys, each that of an offered bridge. */
  lemma {:induction false} CacheGrowsWithin(c: Caching, bs: seq<Bridge>, writes: seq<WriteOutcome>, n: nat)
    requires n <= |bs| == |writes|
    ensures c.cache <= CacheUpTo(c, bs, writes, n).cache
    ensures CacheUpTo(c, bs, writes, n).cache - c.cache <= KeySet(bs[..n])
  {
    if n > 0 {
      CacheGrowsWithin(c, bs, writes, n - 1);
      CacheStepOutcome(CacheUpTo(c, bs, writes, n - 1), bs[n - 1], writes[n - 1]);
      KeySetLast(bs[..n]);
      assert bs[..n][..n - 1] == bs[..n - 1];
    }
  }

  /** An offer whose save writes every line only appends to what a
      readable bridge file lists. */
  lemma StepExtendsListing(c: Caching, b: Bridge)
    requires WellFormed(b) && ListBridgesOf(c.file).Ok?
    ensures ListBridgesOf(CacheStep(c, b, Written).file).Ok?
    ensures ListBridgesOf(c.file).value <= ListBridgesOf(CacheStep(c, b, Written).file).value
  {
    CacheStepOutcome(c, b, Written);
  }

  lemma SubsetCardinality(a: set<string>, b: set<string>)
    requires a <= b
    ensures |a| <= |b|
  {
    assert b == a + (b - a);
  }
}
