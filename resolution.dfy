/** The request path of the gateway (worker.js `fetchUp`, `sequential`,
    the gaming classification and the cache decision of `doh` and
    `withDoHHeaders`). The network is an oracle: a function from the
    upstream URL, the `dns` parameter and the deadline to what the call
    gives back. */
module Resolution {
  import opened Wrappers
  import opened Bytes
  import opened Metrics
  import opened Ranking
  import DnsCodec

  const TIMEOUT_MS: nat := 1200
  const DEFAULT_CACHE_TTL: nat := 300
  const GAMING_TTL: nat := 600
  const NEGATIVE_TTL: nat := 60

  /** An HTTP response from an upstream: its status and its body bytes. */
  datatype Response = Response(status: int, body: seq<byte>) {
    /** `res.ok`: a 2xx status. */
    predicate Ok() {
      200 <= status <= 299
    }
  }

  /** What one upstream `fetch` does: it yields a response after `rtt`
      milliseconds, or it throws (a network error, or the abort at the
      deadline). */
  datatype Upstream = Reply(response: Response, rtt: nat) | Thrown

  /** The network, seen from `fetchUp`: upstream URL, `dns` parameter and
      deadline in milliseconds to the outcome. */
  type Oracle = (string, string, nat) -> Upstream

  /** The abort deadline of `fetchUp`: `Math.min(800, TIMEOUT_MS)` for short
      calls, `TIMEOUT_MS` otherwise. */
  function Deadline(short: bool): (ms: nat)
    ensures ms == if short then 800 else 1200
  {
    if short then Min(800, TIMEOUT_MS) else TIMEOUT_MS
  }

  /** The body "fail" of the synthetic response. */
  const FAIL_BODY: seq<byte> := [102, 97, 105, 108]

  /** What `fetchUp` returns: the upstream response, or a synthetic 599
      when the call throws; never an exception. */
  function Fetched(u: Upstream): (r: Response)
    ensures u.Thrown? ==> r.status == 599 && !r.Ok()
    ensures u.Reply? ==> r == u.response
  {
    match u
    case Reply(res, _) => res
    case Thrown => Response(599, FAIL_BODY)
  }

  /** The round-trip time `fetchUp` reports to `observe`: the measured time,
      or `TIMEOUT_MS * 2` after a throw (also for short calls). */
  function ObservedRtt(u: Upstream): nat {
    match u
    case Reply(_, rtt) => rtt
    case Thrown => TIMEOUT_MS * 2
  }

  /** The success flag `fetchUp` reports to `observe`. */
  function ObservedOk(u: Upstream): bool {
    u.Reply? && u.response.Ok()
  }

  /** worker.js `fetchUp`: one upstream call, recorded in the metrics. */
  method FetchUp(store: MetricsStore, p: Scored, dnsB64: string, short: bool, oracle: Oracle)
    returns (res: Response)
    modifies store
    ensures var u := oracle(p.url, dnsB64, Deadline(short));
      && res == Fetched(u)
      && store.kv == if store.bound then Record(old(store.kv), p.name, ObservedRtt(u), ObservedOk(u)) else old(store.kv)
  {
    var u := oracle(p.url, dnsB64, Deadline(short));
    match u
    case Reply(r, rtt) =>
      store.Observe(p.name, rtt, r.Ok());
      res := r;
    case Thrown =>
      store.Observe(p.name, TIMEOUT_MS * 2, false);
      res := Response(599, FAIL_BODY);
  }

  // ---------------------------------------------------------------------
  // sequential
  // ---------------------------------------------------------------------

  /** The outcomes of calling each provider of `list` with the full deadline. */
  function Outcomes(list: seq<Scored>, dnsB64: string, oracle: Oracle): seq<Upstream> {
    seq(|list|, i requires 0 <= i < |list| => oracle(list[i].url, dnsB64, TIMEOUT_MS))
  }

  /** The index of the first outcome whose response is ok, or |us| when
      there is none. */
  function FirstOk(us: seq<Upstream>): (k: nat)
    ensures k <= |us|
    ensures forall j :: 0 <= j < k ==> !Fetched(us[j]).Ok()
    ensures k < |us| ==> Fetched(us[k]).Ok()
    decreases |us|
  {
    if |us| == 0 then 0
    else if Fetched(us[0]).Ok() then 0
    else 1 + FirstOk(us[1..])
  }

  /** The metrics after the first `k` attempts of `list` were observed, in order. */
  function ObserveAll(m: map<string, Metric>, list: seq<Scored>, us: seq<Upstream>, k: nat): map<string, Metric>
    requires k <= |list| == |us|
    decreases k
  {
    if k == 0 then m
    else Record(ObserveAll(m, list, us, k - 1), list[k - 1].name, ObservedRtt(us[k - 1]), ObservedOk(us[k - 1]))
  }

  /** A provider not among the first `k` attempted keeps its entry: nothing
      is observed for providers after the one that answered. */
  lemma {:induction false} ObserveAllUntouched(m: map<string, Metric>, list: seq<Scored>, us: seq<Upstream>, k: nat, name: string)
    requires k <= |list| == |us|
    requires forall j :: 0 <= j < k ==> list[j].name != name
    ensures Lookup(ObserveAll(m, list, us, k), name) == Lookup(m, name)
    decreases k
  {
    if k > 0 {
      ObserveAllUntouched(m, list, us, k - 1, name);
    }
  }

  /** Observations keep the counters consistent. */
  lemma {:induction false} ObserveAllWellFormed(m: map<string, Metric>, list: seq<Scored>, us: seq<Upstream>, k: nat)
    requires k <= |list| == |us| && WellFormed(m)
    ensures WellFormed(ObserveAll(m, list, us, k))
    decreases k
  {
    if k > 0 {
      ObserveAllWellFormed(m, list, us, k - 1);
      RecordWellFormed(ObserveAll(m, list, us, k - 1), list[k - 1].name, ObservedRtt(us[k - 1]), ObservedOk(us[k - 1]));
    }
  }

  /** The number of upstream calls `sequential` makes: up to and including
      the first ok one, or all of them. */
  function Attempts(us: seq<Upstream>): (n: nat)
    ensures n <= |us|
    ensures (forall j :: 0 <= j < |us| ==> !Fetched(us[j]).Ok()) ==> n == |us|
    ensures (exists j :: 0 <= j < |us| && Fetched(us[j]).Ok()) ==>
      0 < n && Fetched(us[n - 1]).Ok() && forall j :: 0 <= j < n - 1 ==> !Fetched(us[j]).Ok()
  {
    if FirstOk(us) < |us| then FirstOk(us) + 1 else |us|
  }

  /** The first ok response among the outcomes, if any. */
  function FirstResponse(us: seq<Upstream>): (r: Option<Response>)
    ensures r.Some? ==> r.value.Ok()
    ensures r.None? <==> forall i :: 0 <= i < |us| ==> !Fetched(us[i]).Ok()
  {
    if FirstOk(us) < |us| then Some(Fetched(us[FirstOk(us)])) else None
  }

  /** What `sequential` returns when the metrics read at entry are `m`. */
  function SequentialResult(m: map<string, Metric>, dnsB64: string, oracle: Oracle): (r: Option<Response>)
    ensures r.Some? ==> r.value.Ok()
    ensures r.None? <==> forall i :: 0 <= i < |PROVIDERS| ==>
      !Fetched(oracle(Rank(m)[i].url, dnsB64, TIMEOUT_MS)).Ok()
  {
    var list := Rank(m);
    var us := Outcomes(list, dnsB64, oracle);
    assert |us| == |list| && forall i :: 0 <= i < |us| ==> us[i] == oracle(list[i].url, dnsB64, TIMEOUT_MS);
    FirstResponse(us)
  }

  /** The first ok response in ranked order is the one returned, and every
      provider ranked before it failed. */
  lemma SequentialPicksFirstOk(m: map<string, Metric>, dnsB64: string, oracle: Oracle, k: nat)
    requires k < |PROVIDERS|
    requires Fetched(oracle(Rank(m)[k].url, dnsB64, TIMEOUT_MS)).Ok()
    requires forall j :: 0 <= j < k ==> !Fetched(oracle(Rank(m)[j].url, dnsB64, TIMEOUT_MS)).Ok()
    ensures SequentialResult(m, dnsB64, oracle) == Some(Fetched(oracle(Rank(m)[k].url, dnsB64, TIMEOUT_MS)))
  {
    var us := Outcomes(Rank(m), dnsB64, oracle);
    RankProperties(m);
    FirstOkIs(us, k);
  }

  /** worker.js `sequential`: the ranking is computed once; the providers
      are tried in that order until one answers ok. */
  method Sequential(store: MetricsStore, dnsB64: string, oracle: Oracle) returns (r: Option<Response>)
    modifies store
    ensures r == SequentialResult(old(store.Read()), dnsB64, oracle)
    ensures var list := Rank(old(store.Read()));
      var us := Outcomes(list, dnsB64, oracle);
      store.kv == if store.bound then ObserveAll(old(store.kv), list, us, Attempts(us)) else old(store.kv)
  {
    var list := Ranked(store);
    r := TryInOrder(store, list, dnsB64, oracle);
  }

  /** The loop of `sequential` over the ranked `list`. */
  method TryInOrder(store: MetricsStore, list: seq<Scored>, dnsB64: string, oracle: Oracle) returns (r: Option<Response>)
    modifies store
    ensures var us := Outcomes(list, dnsB64, oracle);
      && r == FirstResponse(us)
      && store.kv == if store.bound then ObserveAll(old(store.kv), list, us, Attempts(us)) else old(store.kv)
  {
    ghost var us := Outcomes(list, dnsB64, oracle);
    for i := 0 to |list|
      invariant forall j :: 0 <= j < i ==> !Fetched(us[j]).Ok()
      invariant store.kv == if store.bound then ObserveAll(old(store.kv), list, us, i) else old(store.kv)
    {
      var res := FetchUp(store, list[i], dnsB64, false, oracle);
      if res.Ok() {
        FirstOkIs(us, i);
        return Some(res);
      }
    }
    FirstOkIs(us, |list|);
    return None;
  }

  /** `FirstOk` is the index the loop stops at. */
  lemma FirstOkIs(us: seq<Upstream>, i: nat)
    requires i <= |us|
    requires forall j :: 0 <= j < i ==> !Fetched(us[j]).Ok()
    requires i < |us| ==> Fetched(us[i]).Ok()
    ensures FirstOk(us) == i
  {
  }

  // ---------------------------------------------------------------------
  // Gaming classification
  // ---------------------------------------------------------------------

  /** The substrings that mark a query name as gaming traffic. */
  const GAMING_HINTS: seq<string> := [
    "steam", "steampowered", "steamstatic", "epicgames", "fortnite", "riot", "valorant",
    "leagueoflegends", "lol", "playstation", "psn", "xbox", "battle.net", "blizzard",
    "ea.com", "origin.com", "ubisoft", "uplay", "activision", "callofduty", "cod",
    "rockstargames", "pubgmobile", "pubg", "gpubgm", "igamecj", "clashroyale", "supercell",
    "minecraft", "mojang", "roblox", "discord", "twitch", "akamaihd", "akamaized",
    "cloudfront", "edgesuite"
  ]

  /** `h` occurs in `s` at offset `i`. */
  predicate OccursAt(s: string, h: string, i: int) {
    0 <= i && i + |h| <= |s| && s[i..i + |h|] == h
  }

  /** `s.includes(h)`. */
  function Includes(s: string, h: string): (b: bool)
    ensures b <==> exists i :: OccursAt(s, h, i)
    decreases |s|
  {
    if |h| > |s| then false
    else if s[..|h|] == h then
      assert OccursAt(s, h, 0);
      true
    else
      var b := Includes(s[1..], h);
      if b then
        var i :| OccursAt(s[1..], h, i);
        assert s[1..][i..i + |h|] == s[i + 1..i + 1 + |h|];
        assert OccursAt(s, h, i + 1);
        true
      else
        assert !OccursAt(s, h, 0);
        forall i | OccursAt(s, h, i) && i >= 1 ensures OccursAt(s[1..], h, i - 1) {
          assert s[1..][i - 1..i - 1 + |h|] == s[i..i + |h|];
        }
        false
  }

  /** `hints.some(h => qname.includes(h))`. */
  function SomeHint(q: string, hints: seq<string>): (b: bool)
    ensures b <==> exists k :: 0 <= k < |hints| && Includes(q, hints[k])
    decreases |hints|
  {
    if |hints| == 0 then false
    else if Includes(q, hints[0]) then true
    else
      var b := SomeHint(q, hints[1..]);
      assert forall k :: 1 <= k < |hints| ==> hints[1..][k - 1] == hints[k];
      b
  }

  /** `qname && GAMING_HINTS.some(h => qname.includes(h))`: a non-empty name
      containing some hint. */
  function IsGaming(q: string): (g: bool)
    ensures g <==> q != "" && exists k :: 0 <= k < |GAMING_HINTS| && Includes(q, GAMING_HINTS[k])
  {
    q != "" && SomeHint(q, GAMING_HINTS)
  }

  lemma SteamIsGaming()
    ensures IsGaming("store.steampowered.com")
  {
    assert OccursAt("store.steampowered.com", "steam", 6);
    assert Includes("store.steampowered.com", GAMING_HINTS[0]);
  }

  /** The hints are plain substrings: "cod" matches inside "unicode.org". */
  lemma SubstringMatchIsLoose()
    ensures IsGaming("unicode.org")
  {
    assert GAMING_HINTS[20] == "cod";
    assert OccursAt("unicode.org", "cod", 3);
    assert Includes("unicode.org", GAMING_HINTS[20]);
  }

  // ---------------------------------------------------------------------
  // doh: the response and the cache decision
  // ---------------------------------------------------------------------

  /** What `doh` sends back: status, body, the `Cache-Control` max-age (none
      on the 502 reply) and whether the response is written to the cache. */
  datatype Answer = Answer(status: int, body: seq<byte>, maxAge: Option<nat>, cached: bool)

  /** The body "Upstream failure" of the 502 reply. */
  const UPSTREAM_FAILURE: seq<byte> :=
    [85, 112, 115, 116, 114, 101, 97, 109, 32, 102, 97, 105, 108, 117, 114, 101]

  /** `withDoHHeaders`: max-age 600 for gaming queries, 300 otherwise. */
  function MaxAge(gaming: bool): (age: nat)
    ensures age == if gaming then 600 else 300
  {
    if gaming then GAMING_TTL else DEFAULT_CACHE_TTL
  }

  /** The `ttl` that `doh` computes and then never uses. */
  function TtlChoice(gaming: bool, res: Response): (ttl: int)
    ensures !res.Ok() ==> ttl == NEGATIVE_TTL
  {
    if res.Ok() then (if gaming then GAMING_TTL else DnsCodec.TtlOrDefault(res.body, DEFAULT_CACHE_TTL))
    else NEGATIVE_TTL
  }

  /** The part of `doh` after the upstream call: 502 when there is no
      response; otherwise the response with the DoH headers, cached when ok. */
  function Decide(gaming: bool, res: Option<Response>): (a: Answer)
    ensures res.None? ==> a.status == 502 && a.maxAge.None? && !a.cached
    ensures res.Some? ==> a.status == res.value.status && a.body == res.value.body
    ensures res.Some? ==> a.maxAge == Some(MaxAge(gaming))
    ensures a.cached <==> res.Some? && res.value.Ok()
  {
    match res
    case None => Answer(502, UPSTREAM_FAILURE, None, false)
    case Some(r) => Answer(r.status, r.body, Some(MaxAge(gaming)), r.Ok())
  }

  /** The max-age does not follow the records' TTL: an ok response whose
      answers carry TTL 100 is still served with max-age 300. */
  lemma MaxAgeIgnoresRecordTtl()
    ensures DnsCodec.TtlOrDefault(DnsCodec.LaterTtlExample(), DEFAULT_CACHE_TTL) == 100
    ensures TtlChoice(false, Response(200, DnsCodec.LaterTtlExample())) == 100
    ensures Decide(false, Some(Response(200, DnsCodec.LaterTtlExample()))).maxAge == Some(300)
  {
    DnsCodec.LaterTtlWins();
  }

  /** worker.js `doh` from the `dns` parameter on, past a cache miss. A
      gaming query is answered by `race`, whose result `raced` is given; any
      other one by `sequential`. */
  method Doh(store: MetricsStore, dnsB64: string, oracle: Oracle, raced: Option<Response>)
    returns (answer: Answer)
    modifies store
    ensures var gaming := IsGaming(DnsCodec.ExtractQname(dnsB64));
      answer == Decide(gaming, if gaming then raced else SequentialResult(old(store.Read()), dnsB64, oracle))
    ensures var list := Rank(old(store.Read()));
      var us := Outcomes(list, dnsB64, oracle);
      !IsGaming(DnsCodec.ExtractQname(dnsB64)) ==>
        store.kv == if store.bound then ObserveAll(old(store.kv), list, us, Attempts(us)) else old(store.kv)
  {
    var qname := DnsCodec.SafeExtractQname(dnsB64);
    var isGaming := IsGaming(qname);
    var res: Option<Response>;
    if isGaming {
      res := raced;
    } else {
      res := Sequential(store, dnsB64, oracle);
    }
    if res.None? {
      return Answer(502, UPSTREAM_FAILURE, None, false);
    }
    var r := res.value;
    var ok := r.Ok();
    var ttl := NEGATIVE_TTL;
    if ok {
      if isGaming {
        ttl := GAMING_TTL;
      } else {
        ttl := DnsCodec.DnsTtlOrDefault(r.body, DEFAULT_CACHE_TTL);
      }
    }
    assert ttl == TtlChoice(isGaming, r);
    answer := Answer(r.status, r.body, Some(MaxAge(isGaming)), ok);
  }
}
