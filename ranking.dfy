/** Provider ranking (worker.js `ranked`): each configured upstream gets a
    score from its static weight, its smoothed round-trip time and its
    success ratio, and the list is sorted by descending score, ties kept in
    configuration order (Array.prototype.sort is stable). */
module Ranking {
  import opened Metrics

  /** A configured upstream resolver with its static weight. */
  datatype Provider = Provider(name: string, url: string, w: nat)

  /** The static upstream list, in configuration order. */
  const PROVIDERS: seq<Provider> := [
    Provider("Cloudflare", "https://cloudflare-dns.com/dns-query", 35),
    Provider("Google", "https://dns.google/dns-query", 25),
    Provider("Quad9", "https://dns.quad9.net/dns-query", 15),
    Provider("OpenDNS", "https://doh.opendns.com/dns-query", 10),
    Provider("AdGuard", "https://dns.adguard.com/dns-query", 8),
    Provider("ControlD", "https://freedns.controld.com/p2", 7)
  ]

  /** A provider with the round-trip time used for it and its score. */
  datatype Scored = Scored(name: string, url: string, w: nat, rtt: nat, score: real)

  /** `r && r.rtt ? r.rtt : 20`: unseen providers, and a stored time of 0,
      count as 20 ms. */
  function EffectiveRtt(m: map<string, Metric>, name: string): (rtt: nat)
    ensures rtt >= 1
    ensures name !in m ==> rtt == 20
  {
    if name in m && m[name].rtt != 0 then m[name].rtt else 20
  }

  function RMax(a: real, b: real): real {
    if a >= b then a else b
  }

  /** `r && r.ok ? Math.max(0.1, r.ok / Math.max(1, r.n)) : 1`: the success
      ratio, at least 0.1; a provider that is unseen or has no success at
      all is credited with 1. */
  function Reliability(m: map<string, Metric>, name: string): (up: real)
    ensures 0.1 <= up
    ensures name !in m || m[name].ok == 0 ==> up == 1.0
    ensures name in m && 0 < m[name].ok <= m[name].n ==> up <= 1.0
  {
    if name in m && m[name].ok != 0 then
      RMax(0.1, m[name].ok as real / (if m[name].n >= 1 then m[name].n else 1) as real)
    else 1.0
  }

  /** `w + 1000 / (rtt + 5) + 50 * up`. */
  function Score(w: nat, rtt: nat, up: real): real {
    w as real + 1000.0 / (rtt + 5) as real + 50.0 * up
  }

  /** A provider's score: above its weight plus 5, since the time term is
      positive and the reliability at least 0.1. */
  function ScoreOf(p: Provider, m: map<string, Metric>): (r: real)
    ensures r > p.w as real + 5.0
    ensures r == Score(p.w, EffectiveRtt(m, p.name), Reliability(m, p.name))
  {
    var rtt := EffectiveRtt(m, p.name);
    assert 1000.0 / (rtt + 5) as real > 0.0;
    Score(p.w, rtt, Reliability(m, p.name))
  }

  /** At a given weight, a faster provider scores higher at no lower
      reliability, and a more reliable one at no higher time. */
  lemma ScoreMonotone(w: nat, rtt1: nat, up1: real, rtt2: nat, up2: real)
    requires rtt1 <= rtt2 && up1 >= up2
    requires rtt1 < rtt2 || up1 > up2
    ensures Score(w, rtt1, up1) > Score(w, rtt2, up2)
  {
    DivAntitone((rtt1 + 5) as real, (rtt2 + 5) as real);
  }

  lemma DivAntitone(a: real, b: real)
    requires 0.0 < a <= b
    ensures 1000.0 / a >= 1000.0 / b
    ensures a < b ==> 1000.0 / a > 1000.0 / b
  {
    var x, y := 1000.0 / a, 1000.0 / b;
    assert x * a == 1000.0 && y * b == 1000.0;
    assert y > 0.0;
    assert y * a <= y * b;
    if a < b {
      assert y * a < y * b;
    }
  }

  /** One provider with its effective time and score. */
  function ScoreOne(p: Provider, m: map<string, Metric>): Scored {
    Scored(p.name, p.url, p.w, EffectiveRtt(m, p.name), ScoreOf(p, m))
  }

  /** `PROVIDERS.map(...)`: the scored list, before sorting. */
  function ScoreAll(ps: seq<Provider>, m: map<string, Metric>): seq<Scored> {
    seq(|ps|, i requires 0 <= i < |ps| => ScoreOne(ps[i], m))
  }

  // ---------------------------------------------------------------------
  // Stable descending sort
  // ---------------------------------------------------------------------

  predicate SortedDesc(s: seq<Scored>) {
    forall i, j :: 0 <= i < j < |s| ==> s[i].score >= s[j].score
  }

  /** Inserting `x` at the end of `s` and moving it forward past the
      elements whose score is strictly lower. */
  function Insert(s: seq<Scored>, x: Scored): (r: seq<Scored>)
    ensures |r| == |s| + 1
    decreases |s|
  {
    if |s| == 0 || s[|s| - 1].score >= x.score then s + [x]
    else Insert(s[..|s| - 1], x) + [s[|s| - 1]]
  }

  /** Insertion sort, the reference for the sort `ranked` performs. */
  function SortDesc(s: seq<Scored>): (r: seq<Scored>)
    ensures |r| == |s|
    decreases |s|
  {
    if |s| == 0 then [] else Insert(SortDesc(s[..|s| - 1]), s[|s| - 1])
  }

  /** The elements of `s` with score `v`, in order. */
  function WithScore(s: seq<Scored>, v: real): seq<Scored>
    decreases |s|
  {
    if |s| == 0 then []
    else WithScore(s[..|s| - 1], v) + (if s[|s| - 1].score == v then [s[|s| - 1]] else [])
  }

  lemma {:induction false} WithScoreAppend(a: seq<Scored>, b: seq<Scored>, v: real)
    ensures WithScore(a + b, v) == WithScore(a, v) + WithScore(b, v)
    decreases |b|
  {
    if |b| == 0 {
      assert a + b == a;
    } else {
      assert (a + b)[..|a + b| - 1] == a + b[..|b| - 1];
      WithScoreAppend(a, b[..|b| - 1], v);
    }
  }

  lemma {:induction false} InsertSorted(s: seq<Scored>, x: Scored)
    requires SortedDesc(s)
    ensures SortedDesc(Insert(s, x))
    decreases |s|
  {
    if |s| > 0 && s[|s| - 1].score < x.score {
      var init, last := s[..|s| - 1], s[|s| - 1];
      SortedPrefix(s);
      assert forall i :: 0 <= i < |init| ==> init[i] == s[i];
      InsertSorted(init, x);
      InsertAtLeast(init, x, last.score);
      SortedSnoc(Insert(init, x), last);
    }
  }

  /** Dropping the last element keeps a sequence sorted, and the last
      element is the smallest. */
  lemma SortedPrefix(s: seq<Scored>)
    requires SortedDesc(s) && |s| > 0
    ensures SortedDesc(s[..|s| - 1])
    ensures forall i :: 0 <= i < |s| - 1 ==> s[i].score >= s[|s| - 1].score
  {
    var init := s[..|s| - 1];
    forall i, j | 0 <= i < j < |init| ensures init[i].score >= init[j].score {
      assert init[i] == s[i] && init[j] == s[j];
    }
  }

  /** Inserting keeps a lower bound on the scores. */
  lemma InsertAtLeast(s: seq<Scored>, x: Scored, v: real)
    requires forall i :: 0 <= i < |s| ==> s[i].score >= v
    requires x.score >= v
    ensures forall i :: 0 <= i < |Insert(s, x)| ==> Insert(s, x)[i].score >= v
  {
    var r := Insert(s, x);
    InsertMultiset(s, x);
    forall i | 0 <= i < |r| ensures r[i].score >= v {
      assert r[i] in multiset(r);
      assert r[i] in multiset(s) || r[i] == x;
      if r[i] in multiset(s) {
        var k :| 0 <= k < |s| && s[k] == r[i];
      }
    }
  }

  /** Appending an element no larger than every score keeps a sequence sorted. */
  lemma SortedSnoc(r: seq<Scored>, last: Scored)
    requires SortedDesc(r)
    requires forall i :: 0 <= i < |r| ==> r[i].score >= last.score
    ensures SortedDesc(r + [last])
  {
    var t := r + [last];
    forall i, j | 0 <= i < j < |t| ensures t[i].score >= t[j].score {
      assert t[i] == r[i];
      if j < |r| {
        assert t[j] == r[j];
      }
    }
  }

  lemma {:induction false} InsertMultiset(s: seq<Scored>, x: Scored)
    ensures multiset(Insert(s, x)) == multiset(s) + multiset{x}
    decreases |s|
  {
    if |s| > 0 && s[|s| - 1].score < x.score {
      InsertMultiset(s[..|s| - 1], x);
      assert s == s[..|s| - 1] + [s[|s| - 1]];
    }
  }

  /** Insertion keeps ties in order: `x` goes after every element with its
      score. */
  lemma {:induction false} InsertWithScore(s: seq<Scored>, x: Scored, v: real)
    ensures WithScore(Insert(s, x), v) == WithScore(s, v) + (if x.score == v then [x] else [])
    decreases |s|
  {
    if |s| == 0 || s[|s| - 1].score >= x.score {
      WithScoreAppend(s, [x], v);
      assert WithScore([x], v) == (if x.score == v then [x] else []) by {
        assert [x][..0] == [];
      }
    } else {
      var init, last := s[..|s| - 1], s[|s| - 1];
      InsertWithScore(init, x, v);
      WithScoreAppend(Insert(init, x), [last], v);
      assert WithScore([last], v) == (if last.score == v then [last] else []) by {
        assert [last][..0] == [];
      }
    }
  }

  /** The sort yields a list in non-increasing score order. */
  lemma {:induction false} SortDescSorted(s: seq<Scored>)
    ensures SortedDesc(SortDesc(s))
    decreases |s|
  {
    if |s| > 0 {
      SortDescSorted(s[..|s| - 1]);
      InsertSorted(SortDesc(s[..|s| - 1]), s[|s| - 1]);
    }
  }

  /** The sort yields a permutation of its input. */
  lemma {:induction false} SortDescPermutation(s: seq<Scored>)
    ensures multiset(SortDesc(s)) == multiset(s)
    decreases |s|
  {
    if |s| > 0 {
      SortDescPermutation(s[..|s| - 1]);
      PermutationStep(s, SortDesc(s[..|s| - 1]));
    }
  }

  lemma PermutationStep(s: seq<Scored>, sorted: seq<Scored>)
    requires |s| > 0 && multiset(sorted) == multiset(s[..|s| - 1])
    ensures multiset(Insert(sorted, s[|s| - 1])) == multiset(s)
  {
    InsertMultiset(sorted, s[|s| - 1]);
    assert s == s[..|s| - 1] + [s[|s| - 1]];
  }

  /** The sort is stable: the elements of each score keep their order. */
  lemma {:induction false} SortDescStable(s: seq<Scored>, v: real)
    ensures WithScore(SortDesc(s), v) == WithScore(s, v)
    decreases |s|
  {
    if |s| > 0 {
      SortDescStable(s[..|s| - 1], v);
      InsertWithScore(SortDesc(s[..|s| - 1]), s[|s| - 1], v);
    }
  }

  /** A list already in order is left as it is. */
  lemma {:induction false} SortDescOfSorted(s: seq<Scored>)
    requires SortedDesc(s)
    ensures SortDesc(s) == s
    decreases |s|
  {
    if |s| > 0 {
      var init, last := s[..|s| - 1], s[|s| - 1];
      assert SortedDesc(init) by {
        forall i, j | 0 <= i < j < |init| ensures init[i].score >= init[j].score {
          assert init[i] == s[i] && init[j] == s[j];
        }
      }
      SortDescOfSorted(init);
      assert SortDesc(s) == Insert(init, last);
      if |init| > 0 {
        assert init[|init| - 1] == s[|s| - 2];
      }
      assert Insert(init, last) == init + [last];
      assert s == init + [last];
    }
  }

  // ---------------------------------------------------------------------
  // ranked
  // ---------------------------------------------------------------------

  /** The list `ranked` returns for the metrics map `m`. */
  function Rank(m: map<string, Metric>): seq<Scored> {
    SortDesc(ScoreAll(PROVIDERS, m))
  }

  /** What the ranking promises: all six providers, in non-increasing score
      order, each exactly once. */
  lemma RankProperties(m: map<string, Metric>)
    ensures |Rank(m)| == |PROVIDERS|
    ensures SortedDesc(Rank(m))
    ensures multiset(Rank(m)) == multiset(ScoreAll(PROVIDERS, m))
    ensures forall v: real :: WithScore(Rank(m), v) == WithScore(ScoreAll(PROVIDERS, m), v)
  {
    SortDescSorted(ScoreAll(PROVIDERS, m));
    SortDescPermutation(ScoreAll(PROVIDERS, m));
    forall v: real ensures WithScore(Rank(m), v) == WithScore(ScoreAll(PROVIDERS, m), v) {
      SortDescStable(ScoreAll(PROVIDERS, m), v);
    }
  }

  /** An unseen provider scores its weight plus 1000/25 plus 50. */
  lemma UnseenScore(p: Provider, m: map<string, Metric>)
    requires p.name !in m
    ensures ScoreOf(p, m) == p.w as real + 90.0
  {
  }

  /** A provider seen but never successful is still credited with full
      reliability, like an unseen one. */
  lemma NoSuccessFullCredit(p: Provider, m: map<string, Metric>)
    requires p.name in m && m[p.name].ok == 0 && m[p.name].n >= 1
    ensures ScoreOf(p, m) == p.w as real + 1000.0 / (EffectiveRtt(m, p.name) + 5) as real + 50.0
  {
  }

  /** With no metrics every score is the weight plus 90, and since the
      weights decrease the ranking is the configuration order. */
  lemma EmptyMetricsRank()
    ensures forall i :: 0 <= i < |Rank(map[])| ==> Rank(map[])[i].name == PROVIDERS[i].name
    ensures forall i :: 0 <= i < |Rank(map[])| ==> Rank(map[])[i].score == PROVIDERS[i].w as real + 90.0
  {
    var s := ScoreAll(PROVIDERS, map[]);
    forall i | 0 <= i < |s| ensures s[i].score == PROVIDERS[i].w as real + 90.0 {
      UnseenScore(PROVIDERS[i], map[]);
    }
    assert SortedDesc(s);
    SortDescOfSorted(s);
  }

  /** The in-place sort of `ranked`: an insertion sort by adjacent swaps
      that moves each element forward past strictly lower scores. */
  method SortByScore(a: array<Scored>)
    modifies a
    ensures a[..] == SortDesc(old(a[..]))
  {
    ghost var s := a[..];
    for i := 0 to a.Length
      invariant a[..] == SortDesc(s[..i]) + s[i..]
    {
      SplitAt(SortDesc(s[..i]), s, i);
      InsertInPlace(a, i);
      assert SortDesc(s[..i + 1]) == Insert(SortDesc(s[..i]), s[i]) by {
        assert s[..i + 1][..i] == s[..i];
      }
    }
    assert s[..a.Length] == s;
  }

  lemma SplitAt(pre: seq<Scored>, s: seq<Scored>, i: nat)
    requires i < |s| && |pre| == i
    ensures (pre + s[i..])[..i] == pre && (pre + s[i..])[i] == s[i] && (pre + s[i..])[i + 1..] == s[i + 1..]
  {
  }

  /** One pass of the insertion sort: `a[i]` moves forward past the strictly
      lower scores of the sorted prefix `a[..i]`. */
  method InsertInPlace(a: array<Scored>, i: nat)
    requires i < a.Length
    modifies a
    ensures a[..] == Insert(old(a[..i]), old(a[i])) + old(a[i + 1..])
  {
    ghost var pre, x, rest := a[..i], a[i], a[i + 1..];
    assert a[..] == pre + [x] + rest by {
      assert a[..] == a[..i] + [a[i]] + a[i + 1..];
    }
    StartInsert(pre, x, rest);
    var j := i;
    while j > 0 && a[j - 1].score < a[j].score
      invariant 0 <= j <= i
      invariant a[..] == pre[..j] + [x] + pre[j..] + rest
      invariant Insert(pre, x) == Insert(pre[..j], x) + pre[j..]
    {
      ghost var before := a[..];
      Positions(pre, x, rest, j);
      a[j - 1], a[j] := a[j], a[j - 1];
      assert a[..] == before[j - 1 := x][j := pre[j - 1]];
      SwapStep(pre, x, rest, j);
      InsertStep(pre, x, j);
      j := j - 1;
    }
    Positions(pre, x, rest, j);
    InsertStop(pre, x, j);
  }

  /** Where the inner loop starts: `x` just after the sorted prefix. */
  lemma StartInsert(pre: seq<Scored>, x: Scored, rest: seq<Scored>)
    ensures pre + [x] + rest == pre[..|pre|] + [x] + pre[|pre|..] + rest
    ensures Insert(pre, x) == Insert(pre[..|pre|], x) + pre[|pre|..]
  {
    assert pre[..|pre|] == pre && pre[|pre|..] == [];
  }

  /** The array slots next to `x` during the inner loop. */
  lemma Positions(pre: seq<Scored>, x: Scored, rest: seq<Scored>, j: nat)
    requires j <= |pre|
    ensures var t := pre[..j] + [x] + pre[j..] + rest;
      |t| == |pre| + 1 + |rest| && t[j] == x && (j > 0 ==> t[j - 1] == pre[j - 1])
  {
  }

  /** One swap moves `x` one slot forward. */
  lemma SwapStep(pre: seq<Scored>, x: Scored, rest: seq<Scored>, j: nat)
    requires 0 < j <= |pre|
    ensures (pre[..j] + [x] + pre[j..] + rest)[j - 1 := x][j := pre[j - 1]]
         == pre[..j - 1] + [x] + pre[j - 1..] + rest
  {
    var t := pre[..j] + [x] + pre[j..] + rest;
    var u := pre[..j - 1] + [x] + pre[j - 1..] + rest;
    forall k | 0 <= k < |u| ensures t[j - 1 := x][j := pre[j - 1]][k] == u[k] {
      if k < j - 1 {
      } else if k == j - 1 || k == j {
      } else if k <= |pre| {
        assert t[k] == pre[k - 1] && u[k] == pre[k - 1];
      } else {
        assert t[k] == rest[k - |pre| - 1] && u[k] == rest[k - |pre| - 1];
      }
    }
  }

  /** One swap of the inner loop: `x` passes an element of lower score. */
  lemma InsertStep(pre: seq<Scored>, x: Scored, j: nat)
    requires 0 < j <= |pre| && pre[j - 1].score < x.score
    requires Insert(pre, x) == Insert(pre[..j], x) + pre[j..]
    ensures Insert(pre, x) == Insert(pre[..j - 1], x) + pre[j - 1..]
  {
    assert pre[..j][..j - 1] == pre[..j - 1];
    assert [pre[j - 1]] + pre[j..] == pre[j - 1..];
  }

  /** The inner loop stops where `x` belongs. */
  lemma InsertStop(pre: seq<Scored>, x: Scored, j: nat)
    requires j <= |pre| && (j == 0 || pre[j - 1].score >= x.score)
    ensures Insert(pre[..j], x) == pre[..j] + [x]
  {
  }

  /** worker.js `ranked`: score every provider with the metrics read from
      the store, then sort in place. */
  method Ranked(store: MetricsStore) returns (r: seq<Scored>)
    ensures r == Rank(store.Read())
  {
    var m := store.Read();
    var scored := new Scored[|PROVIDERS|](i requires 0 <= i < |PROVIDERS| => ScoreOne(PROVIDERS[i], m));
    assert scored[..] == ScoreAll(PROVIDERS, m);
    SortByScore(scored);
    r := scored[..];
  }
}
