/** Per-provider health metrics (worker.js `observe` and `readMetrics`): a
    map from provider name to a request count, a success count and a
    smoothed round-trip time, kept in a key-value store that may be absent. */
module Metrics {
  import opened Wrappers

  /** One provider's entry: requests seen, successful requests, and the
      smoothed round-trip time in milliseconds. */
  datatype Metric = Metric(n: nat, ok: nat, rtt: nat)

  /** `Math.max(1, Math.round(cur * 0.7 + sample * 0.3))` in exact integer
      arithmetic: rounding half up of (7 cur + 3 sample) / 10. */
  function Smoothed(cur: nat, sample: nat): (r: nat)
    ensures r >= 1
    ensures 7 * cur + 3 * sample >= 5 ==> 10 * r - 5 <= 7 * cur + 3 * sample < 10 * r + 5
    ensures 7 * cur + 3 * sample < 5 ==> r == 1
  {
    Max(1, (7 * cur + 3 * sample + 5) / 10)
  }

  /** The smoothed value lies between the old value and the sample (and is
      never below 1). */
  lemma SmoothedBetween(cur: nat, sample: nat)
    ensures Min(cur, sample) <= Smoothed(cur, sample) <= Max(Max(cur, sample), 1)
  {
    var lo, hi := Min(cur, sample), Max(cur, sample);
    assert 10 * lo <= 7 * cur + 3 * sample <= 10 * hi;
    assert (10 * lo + 5) / 10 == lo && (10 * hi + 5) / 10 == hi;
    DivMonotone(10 * lo + 5, 7 * cur + 3 * sample + 5);
    DivMonotone(7 * cur + 3 * sample + 5, 10 * hi + 5);
  }

  lemma DivMonotone(a: nat, b: nat)
    requires a <= b
    ensures a / 10 <= b / 10
  {
  }

  /** A first sample is taken as it is (at least 1). */
  lemma SmoothedFirst(sample: nat)
    ensures Smoothed(sample, sample) == Max(1, sample)
  {
    assert (10 * sample + 5) / 10 == sample;
  }

  /** The entry after one more observation; an absent entry is seeded with
      `{n: 0, ok: 0, rtt: rtt}`. */
  function Next(cur: Option<Metric>, rtt: nat, ok: bool): Metric {
    var c := if cur.Some? then cur.value else Metric(0, 0, rtt);
    Metric(c.n + 1, c.ok + (if ok then 1 else 0), Smoothed(c.rtt, rtt))
  }

  function Lookup(m: map<string, Metric>, name: string): Option<Metric> {
    if name in m then Some(m[name]) else None
  }

  /** What `observe` writes back: `m` with the entry for `name` replaced. */
  function Record(m: map<string, Metric>, name: string, rtt: nat, ok: bool): (m': map<string, Metric>)
    ensures m'.Keys == m.Keys + {name}
    ensures m'[name].n == (if name in m then m[name].n else 0) + 1
    ensures m'[name].ok == (if name in m then m[name].ok else 0) + (if ok then 1 else 0)
    ensures m'[name].rtt == Smoothed(if name in m then m[name].rtt else rtt, rtt)
    ensures forall k :: k in m && k != name ==> m'[k] == m[k]
  {
    m[name := Next(Lookup(m, name), rtt, ok)]
  }

  /** The counters are consistent: at least one request, no more successes
      than requests, and a positive round-trip time. */
  predicate WellFormed(m: map<string, Metric>) {
    forall k :: k in m ==> 1 <= m[k].n && m[k].ok <= m[k].n && 1 <= m[k].rtt
  }

  /** Recording an observation keeps the counters consistent. */
  lemma RecordWellFormed(m: map<string, Metric>, name: string, rtt: nat, ok: bool)
    requires WellFormed(m)
    ensures WellFormed(Record(m, name, rtt, ok))
  {
    var m' := Record(m, name, rtt, ok);
    forall k | k in m'
      ensures 1 <= m'[k].n && m'[k].ok <= m'[k].n && 1 <= m'[k].rtt
    {
      if k != name {
        assert m'[k] == m[k];
      }
    }
  }

  /** Recording for one provider never changes another provider's entry,
      in either order. */
  lemma RecordCommutes(m: map<string, Metric>, a: string, ra: nat, oa: bool, b: string, rb: nat, ob: bool)
    requires a != b
    ensures Record(Record(m, a, ra, oa), b, rb, ob) == Record(Record(m, b, rb, ob), a, ra, oa)
  {
    var x := Record(Record(m, a, ra, oa), b, rb, ob);
    var y := Record(Record(m, b, rb, ob), a, ra, oa);
    assert x.Keys == y.Keys;
    forall k | k in x ensures x[k] == y[k] {
      if k == a {
        assert Lookup(Record(m, b, rb, ob), a) == Lookup(m, a);
      } else if k == b {
        assert Lookup(Record(m, a, ra, oa), b) == Lookup(m, b);
      }
    }
  }

  /** The metrics store. `bound` says whether the key-value binding
      `env.PROVIDER_METRICS` exists; `kv` is the parsed value stored under
      the metrics key. */
  class MetricsStore {
    const bound: bool
    var kv: map<string, Metric>

    constructor(bound: bool, initial: map<string, Metric>)
      ensures this.bound == bound && kv == initial
    {
      this.bound := bound;
      kv := initial;
    }

    /** worker.js `readMetrics`: the stored map, or `{}` without a binding. */
    function Read(): (m: map<string, Metric>)
      reads this
      ensures !bound ==> m == map[]
    {
      if bound then kv else map[]
    }

    /** worker.js `observe`: read the map, update the entry for `name`,
        write the map back; nothing happens without a binding. */
    method Observe(name: string, rtt: nat, ok: bool)
      modifies this
      ensures kv == if bound then Record(old(kv), name, rtt, ok) else old(kv)
      ensures old(WellFormed(kv)) ==> WellFormed(kv)
    {
      if !bound {
        return;
      }
      ghost var before := kv;
      var m := Read();
      var cur := if name in m then m[name] else Metric(0, 0, rtt);
      var n := cur.n + 1;
      var okc := cur.ok + (if ok then 1 else 0);
      var sm := (7 * cur.rtt + 3 * rtt + 5) / 10;
      m := m[name := Metric(n, okc, Max(1, sm))];
      kv := m;
      if WellFormed(before) {
        RecordWellFormed(before, name, rtt, ok);
      }
    }
  }
}
