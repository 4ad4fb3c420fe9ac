/** The metrics store of src/core/metrics.rs. Instants are natural numbers
    of milliseconds on a monotonic clock, passed in as `now`; `f64` values
    are exact reals. The mutex around the store is sequential state here,
    and a timing reports only its sample count. */
module Metrics {
  import opened Decimal

  /** The key `get_all` always fills with the uptime. */
  const UPTIME: string := "uptime"

  /** `MetricValue`; the average, minimum and maximum of a timing are not
      modelled. */
  datatype MetricValue = Counter(count: u64) | Gauge(value: real) | Timing(samples: nat)

  /** `Instant::elapsed().as_secs_f64()`, saturating at zero. */
  function ElapsedSeconds(start: nat, now: nat): real {
    (if now >= start then now - start else 0) as real / 1000.0
  }

  function CounterValue(counters: map<string, u64>, name: string): u64 {
    if name in counters then counters[name] else 0
  }

  /** The reference for `get_all`: every name of every kind, where a
      non-empty timing beats a gauge, a gauge beats a counter, and the
      uptime beats everything under its own name. */
  function Snapshot(counters: map<string, u64>, gauges: map<string, real>,
                    timings: map<string, seq<real>>, uptime: real): map<string, MetricValue>
  {
    map name | name in counters.Keys + gauges.Keys + timings.Keys + {UPTIME}
                 && (name == UPTIME || name in counters || name in gauges || timings[name] != []) ::
      if name == UPTIME then Gauge(uptime)
      else if name in timings && timings[name] != [] then Timing(|timings[name]|)
      else if name in gauges then Gauge(gauges[name])
      else Counter(counters[name])
  }

  /** The internal store (`Metrics`). */
  class Store {
    var counters: map<string, u64>
    var gauges: map<string, real>
    var timings: map<string, seq<real>>
    var startTime: nat

    constructor (now: nat)
      ensures counters == map[] && gauges == map[] && timings == map[] && startTime == now
    {
      counters, gauges, timings, startTime := map[], map[], map[], now;
    }

    /** `record`: insert or overwrite a gauge. */
    method Record(name: string, value: real)
      modifies this
      ensures gauges == old(gauges)[name := value]
      ensures counters == old(counters) && timings == old(timings) && startTime == old(startTime)
    {
      gauges := gauges[name := value];
    }

    /** `increment`: a missing counter starts at 0; then add one. */
    method Increment(name: string)
      modifies this
      ensures counters == old(counters)[name := Wrap64(CounterValue(old(counters), name) + 1)]
      ensures gauges == old(gauges) && timings == old(timings) && startTime == old(startTime)
    {
      counters := counters[name := Wrap64(CounterValue(counters, name) + 1)];
    }

    /** `get_all`: insert the counters, then the gauges, then the non-empty
        timings, then the uptime, into a fresh map. */
    method GetAll(now: nat) returns (result: map<string, MetricValue>)
      ensures result == Snapshot(counters, gauges, timings, ElapsedSeconds(startTime, now))
    {
      result := InsertCounters(map[], counters);
      result := InsertGauges(result, gauges);
      result := InsertTimings(result, timings);
      result := result[UPTIME := Gauge(ElapsedSeconds(startTime, now))];
      SnapshotLayers(counters, gauges, timings, ElapsedSeconds(startTime, now), result);
    }

    /** `reset`: empty every map and restart the clock. */
    method Reset(now: nat)
      modifies this
      ensures counters == map[] && gauges == map[] && timings == map[] && startTime == now
    {
      counters, gauges, timings, startTime := map[], map[], map[], now;
    }
  }

  // ------------------------------------------------- the insertion loops

  /** The first loop of `get_all`. */
  method InsertCounters(into: map<string, MetricValue>, counters: map<string, u64>)
    returns (result: map<string, MetricValue>)
    ensures result.Keys == into.Keys + counters.Keys
    ensures forall name :: name in result ==>
      result[name] == if name in counters then Counter(counters[name]) else into[name]
  {
    result := into;
    var pending := counters.Keys;
    while pending != {}
      invariant pending <= counters.Keys
      invariant result.Keys == into.Keys + (counters.Keys - pending)
      invariant forall name :: name in result ==>
        result[name] == if name in counters && name !in pending then Counter(counters[name]) else into[name]
      decreases pending
    {
      var name :| name in pending;
      result := result[name := Counter(counters[name])];
      pending := pending - {name};
    }
  }

  /** The second loop of `get_all`. */
  method InsertGauges(into: map<string, MetricValue>, gauges: map<string, real>)
    returns (result: map<string, MetricValue>)
    ensures result.Keys == into.Keys + gauges.Keys
    ensures forall name :: name in result ==>
      result[name] == if name in gauges then Gauge(gauges[name]) else into[name]
  {
    result := into;
    var pending := gauges.Keys;
    while pending != {}
      invariant pending <= gauges.Keys
      invariant result.Keys == into.Keys + (gauges.Keys - pending)
      invariant forall name :: name in result ==>
        result[name] == if name in gauges && name !in pending then Gauge(gauges[name]) else into[name]
      decreases pending
    {
      var name :| name in pending;
      result := result[name := Gauge(gauges[name])];
      pending := pending - {name};
    }
  }

  /** The third loop of `get_all`: empty timings are skipped. */
  method InsertTimings(into: map<string, MetricValue>, timings: map<string, seq<real>>)
    returns (result: map<string, MetricValue>)
    ensures forall name :: name in result <==> name in into || (name in timings && timings[name] != [])
    ensures forall name :: name in result ==>
      result[name] == if name in timings && timings[name] != [] then Timing(|timings[name]|) else into[name]
  {
    result := into;
    var pending := timings.Keys;
    while pending != {}
      invariant pending <= timings.Keys
      invariant forall name :: name in result <==>
        name in into || (name in timings && name !in pending && timings[name] != [])
      invariant forall name :: name in result ==>
        result[name] == if name in timings && name !in pending && timings[name] != [] then Timing(|timings[name]|) else into[name]
      decreases pending
    {
      var name :| name in pending;
      if timings[name] != [] {
        result := result[name := Timing(|timings[name]|)];
      }
      pending := pending - {name};
    }
  }

  /** The four layers inserted in order build the snapshot. */
  lemma SnapshotLayers(counters: map<string, u64>, gauges: map<string, real>,
                       timings: map<string, seq<real>>, uptime: real, result: map<string, MetricValue>)
    requires forall name :: name in result <==>
      name == UPTIME || name in counters || name in gauges || (name in timings && timings[name] != [])
    requires forall name :: name in result ==>
      result[name] == (if name == UPTIME then Gauge(uptime)
        else if name in timings && timings[name] != [] then Timing(|timings[name]|)
        else if name in gauges then Gauge(gauges[name])
        else Counter(counters[name]))
    ensures result == Snapshot(counters, gauges, timings, uptime)
  {
    var s := Snapshot(counters, gauges, timings, uptime);
    assert result.Keys == s.Keys;
  }

  // ----------------------------------------------------------- collector

  /** `MetricsCollector`: the public face of the store. Every value it
      records is a gauge, so the store never holds a timing. */
  class MetricsCollector {
    const store: Store

    ghost predicate Valid()
      reads this, store
    {
      store.timings == map[]
    }

    constructor (now: nat)
      ensures Valid() && fresh(store)
      ensures store.counters == map[] && store.gauges == map[] && store.startTime == now
    {
      store := new Store(now);
    }

    method Record(name: string, value: real)
      requires Valid()
      modifies store
      ensures Valid()
      ensures store.gauges == old(store.gauges)[name := value]
      ensures store.counters == old(store.counters) && store.startTime == old(store.startTime)
    {
      store.Record(name, value);
    }

    method Increment(name: string)
      requires Valid()
      modifies store
      ensures Valid()
      ensures store.counters == old(store.counters)[name := Wrap64(CounterValue(old(store.counters), name) + 1)]
      ensures store.gauges == old(store.gauges) && store.startTime == old(store.startTime)
    {
      store.Increment(name);
    }

    /** `record_timing`: the duration, in milliseconds, is stored as a gauge
        of seconds. */
    method RecordTiming(name: string, duration: nat)
      requires Valid()
      modifies store
      ensures Valid()
      ensures store.gauges == old(store.gauges)[name := duration as real / 1000.0]
      ensures store.counters == old(store.counters) && store.startTime == old(store.startTime)
    {
      Record(name, duration as real / 1000.0);
    }

    /** `get_metrics`: the snapshot, which never holds a timing. */
    method GetMetrics(now: nat) returns (result: map<string, MetricValue>)
      requires Valid()
      ensures result == Snapshot(store.counters, store.gauges, map[], ElapsedSeconds(store.startTime, now))
      ensures forall name :: name in result ==> !result[name].Timing?
    {
      result := store.GetAll(now);
    }

    method Reset(now: nat)
      requires Valid()
      modifies store
      ensures Valid()
      ensures store.counters == map[] && store.gauges == map[] && store.startTime == now
    {
      store.Reset(now);
    }
  }

  // ---------------------------------------------------------------- lemmas

  /** A gauge hides a counter of the same name, unless the name is the
      uptime's. */
  lemma GaugeHidesCounter(counters: map<string, u64>, gauges: map<string, real>, uptime: real, name: string)
    requires name in counters && name in gauges && name != UPTIME
    ensures Snapshot(counters, gauges, map[], uptime)[name] == Gauge(gauges[name])
  {
  }

  /** The uptime is always present and overrides a user entry of the same
      name. */
  lemma UptimeAlwaysPresent(counters: map<string, u64>, gauges: map<string, real>,
                            timings: map<string, seq<real>>, uptime: real)
    ensures UPTIME in Snapshot(counters, gauges, timings, uptime)
    ensures Snapshot(counters, gauges, timings, uptime)[UPTIME] == Gauge(uptime)
  {
  }

  /** Without timings, the snapshot holds exactly the recorded names and
      the uptime, each counter showing its count unless a gauge hides it. */
  lemma SnapshotKeys(counters: map<string, u64>, gauges: map<string, real>, uptime: real)
    ensures Snapshot(counters, gauges, map[], uptime).Keys == counters.Keys + gauges.Keys + {UPTIME}
    ensures forall name :: name in counters && name !in gauges && name != UPTIME ==>
      Snapshot(counters, gauges, map[], uptime)[name] == Counter(counters[name])
  {
  }

  /** `increment` counts: one increment adds exactly one to the counter
      (below the wrap-around). */
  lemma IncrementCounts(counters: map<string, u64>, name: string)
    requires CounterValue(counters, name) + 1 < U64_BOUND
    ensures CounterValue(counters[name := Wrap64(CounterValue(counters, name) + 1)], name) == CounterValue(counters, name) + 1
  {
  }
}
