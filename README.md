# A verified model of the resolution core of a DNS-over-HTTPS gateway

The gateway (`worker.js`, a Cloudflare Worker) answers DNS-over-HTTPS
queries by forwarding them to one of six public resolvers. This project
models its resolution core in Dafny and proves properties of that model:

- the DNS wire codec (RFC 1035 sections 4.1.1 to 4.1.3): `qtype`, `buildQuery`,
  `safeExtractQname` (question name, no compression pointers followed) and
  `dnsTtlOrDefault` (the answer TTL), over the base64url codec
  `b64urlEncode` / `b64urlDecode`, with `btoa` and the forgiving-base64
  `atob` written out;
- the provider metrics (`observe`, `readMetrics`): a count of requests, a
  count of successes and an exponentially smoothed round-trip time per
  provider, held by a `MetricsStore` object whose key-value binding may be
  absent;
- the ranking (`ranked`): the score `w + 1000 / (rtt + 5) + 50 * up` and a
  stable sort in non-increasing score order, as an in-place insertion sort
  on an array proved equal to a reference sort;
- the upstream call (`fetchUp`) and the sequential failover (`sequential`),
  with the network as an oracle;
- the gaming classification and the tail of `doh`: 502 when no upstream
  answered, otherwise the response with `Cache-Control: max-age` 600 for
  gaming queries and 300 otherwise, written to the cache only when ok.

Files: `wrappers.dfy` (Option, Min, Max), `bytes.dfy` (bytes and binary
strings), `base64url.dfy`, `dns_codec.dfy`, `metrics.dfy`, `ranking.dfy`,
`resolution.dfy`.

Conventions of the model:

- A read past the end of a `Uint8Array` gives `undefined`, which JavaScript's
  bitwise operators and truthiness tests treat as 0. `Bytes.At` returns 0 there.
- `charCodeAt` pushed into a `Uint8Array` keeps its low 8 bits, and so does a
  label length of 256 or more: both are written `% 256`.
- The TTL `(b0<<24)|(b1<<16)|(b2<<8)|b3` is a signed 32-bit JavaScript
  integer (`DnsCodec.Signed32`), so a TTL with its top bit set is negative
  and ignored.
- `Math.round(cur * 0.7 + rtt * 0.3)` on integer inputs is computed exactly as
  `(7 * cur + 3 * rtt + 5) / 10`.
- Scores are `real`.
- The transaction id (`Math.random`), the clock (`Date.now`) and the network
  (`fetch` with its abort deadline) are parameters: an id, and an `Oracle`
  from URL, `dns` parameter and deadline to a reply with its round-trip time
  or a thrown error.

## Behaviour worth knowing

These four behaviours of the code differ from what a reader of a DNS
gateway would expect. The model follows the code, and a proved lemma
shows each one:

- **TTL.** The answer TTL is read as a signed 32-bit value, not an unsigned
  one (`DnsCodec.Signed32Positive`). It is not the minimum positive TTL:
  each later positive TTL overwrites the earlier one, so the last one wins
  (`DnsCodec.TtlIsLastPositive`, `DnsCodec.LaterTtlWins`).
- **Name length.** Extraction does not stop before going over 253
  characters. It appends the label first and then stops, so the returned
  name contains that label and can be longer than 253 characters
  (`DnsCodec.OverlongNameKeepsLabel`).
- **Providers that never succeeded.** `r && r.ok ? … : 1` treats a provider
  whose success count is 0 like an unseen one. It gets full reliability 1,
  not the floor 0.1 (`Ranking.NoSuccessFullCredit`).
- **The TTL in `doh`.** The TTL computed on line 102 (600, the answer TTL,
  or 60) is never used. The `max-age` is always 600 or 300, and failed
  responses are never cached (`Resolution.MaxAgeIgnoresRecordTtl`,
  `Resolution.Decide`).

## Model

| member | source | states |
|---|---|---|
| DnsCodec.QType | worker.js:250-257 | "AAAA", "CNAME", "TXT", "MX", "NS" map to their codes 28, 5, 16, 15, 2; every other string gives 1 (A) |
| DnsCodec.Split | worker.js:260 | `split(".")` always yields at least one piece, the empty name one empty piece |
| DnsCodec.SplitPieces | worker.js:260 | no piece contains a dot, and there is one piece more than there are dots |
| DnsCodec.SplitJoin | worker.js:260 | joining the pieces of `name.split(".")` with "." gives the name back |
| DnsCodec.PushLabels | worker.js:260-266 | the bytes pushed are each label's length and character codes, then the root byte 0 |
| DnsCodec.WriteHeader | worker.js:268-272 | the 12 header bytes are ID high, ID low, 1, 0, 0, 1 and six zeros |
| DnsCodec.BuildQuery | worker.js:259-280 | the array returned is header, labels, root byte, QTYPE and QCLASS, in that order |
| DnsCodec.EncodeLabelsLength | worker.js:261-265 | the labels take one length byte per label plus its characters |
| DnsCodec.QueryLength | worker.js:259-280 | a query for `name` is `|name| + 18` bytes long |
| DnsCodec.QueryFields | worker.js:268-277 | ID at offset 0, flags 0x0100, QDCOUNT 1, ANCOUNT/NSCOUNT/ARCOUNT 0, the root byte, QTYPE and QCLASS 1 at the end |
| DnsCodec.Qname | worker.js:284-295 | a buffer of at most 12 bytes has the empty name |
| DnsCodec.Lower | worker.js:294 | lower-casing keeps the length of the name |
| DnsCodec.LowerLetters | worker.js:294 | after lower-casing no upper-case letter is left: each one moves 32 code points on, every other character is unchanged, and lower-casing twice is lower-casing once |
| DnsCodec.ExtractQname | worker.js:282-296 | input that does not decode gives "" |
| DnsCodec.ReadPiece | worker.js:290 | reads `len` bytes as characters, fewer when the buffer ends first |
| DnsCodec.ScanName | worker.js:285-295 | the label loop computes the lower-cased joined name the scan defines |
| DnsCodec.SafeExtractQname | worker.js:282-296 | returns the extracted name of the decoded bytes, "" when decoding fails |
| DnsCodec.QnameRoundTrip | worker.js:259-296 | extracting the name from the encoded query for a name of ASCII labels of 1 to 63 characters, at most 253 in all, gives the name lower-cased |
| DnsCodec.PointerYieldsEmpty | worker.js:288 | a compression pointer where a length byte is expected makes the whole result "", even after labels were read |
| DnsCodec.OverlongNameKeepsLabel | worker.js:291-292 | the label that takes the name past 253 characters is kept and ends the loop |
| DnsCodec.TruncatedLabel | worker.js:290 | a label cut short by the end of the buffer yields the bytes present |
| DnsCodec.Clamp | worker.js:315 | the result lies in [30, 1800] and equals the TTL when it already does |
| DnsCodec.SkipName | worker.js:306 | the skip ends at a zero byte or past the end, never before its start |
| DnsCodec.SkipLabels | worker.js:306 | the loop stops where the name skip ends |
| DnsCodec.SkipRecord | worker.js:310-314 | reads the record's TTL and moves past owner name (2 bytes for a pointer), TYPE, CLASS, TTL, RDLENGTH and RDATA |
| DnsCodec.Answers | worker.js:308-316 | the answer loop's result is the starting value or lies in [30, 1800] |
| DnsCodec.TtlOrDefault | worker.js:298-319 | the TTL is the default or in [30, 1800]; ANCOUNT 0 gives the default |
| DnsCodec.DnsTtlOrDefault | worker.js:298-319 | the loops compute the TTL the record walk defines |
| DnsCodec.LastPositive | worker.js:315 | none exactly when no value is positive; otherwise a positive value with nothing positive after it |
| DnsCodec.AnswersLastPositive | worker.js:308-316 | the answer loop returns the clamped last positive TTL of the records read, or its starting value |
| DnsCodec.TtlIsLastPositive | worker.js:298-319 | the TTL is the clamped last positive answer TTL, else the default |
| DnsCodec.Signed32Reading | worker.js:313 | the TTL read is the two's complement value of the four bytes: in the signed 32-bit range, equal to the unsigned value modulo 2^32, negative exactly when the top bit is set |
| DnsCodec.Signed32Positive | worker.js:313 | a TTL counts as positive exactly when its top bit is clear and it is not 0 |
| DnsCodec.LaterTtlWins | worker.js:308-316 | answers with TTL 45 then 100 give 100, not the minimum |
| Base64Url.B64UrlEncode | worker.js:321-325 | the loop and `btoa` give the base64url text of the array's bytes |
| Base64Url.B64UrlDecode | worker.js:327-334 | fails exactly when `atob` throws on the re-padded text; otherwise returns its bytes |
| Base64Url.EncodeIsUnpadded | worker.js:324 | the encoding is the standard base64 of the bytes with `+` `/` replaced and no `=` |
| Base64Url.EncodeAlphabet | worker.js:324 | the encoding uses only A-Z, a-z, 0-9, `-` and `_` |
| Base64Url.EncodeLength | worker.js:321-325 | `n` bytes encode to `ceil(4n / 3)` characters |
| Base64Url.RoundTrip | worker.js:321-334 | decoding the encoding of any byte sequence gives it back |
| Base64Url.DecodeRejectsLengthOneModFour | worker.js:328-330 | text of length 1 mod 4 (without whitespace) gets no padding and `atob` throws |
| Metrics.Smoothed | worker.js:207-208 | the new time is `0.7 cur + 0.3 sample` rounded half up, and exactly 1 when that rounds below 1 |
| Metrics.SmoothedBetween | worker.js:207-208 | the new time lies between the old time and the sample (never below 1) |
| Metrics.SmoothedFirst | worker.js:203-208 | the first sample is stored as it is (at least 1) |
| Metrics.Record | worker.js:202-208 | the entry for `name` counts one more request, one more success when ok, and the smoothed time; an absent entry starts from `{0, 0, rtt}`; other entries are unchanged |
| Metrics.RecordWellFormed | worker.js:199-211 | an observation keeps requests ≥ 1, successes ≤ requests and time ≥ 1 |
| Metrics.RecordCommutes | worker.js:199-211 | observations for two different providers commute |
| Metrics.MetricsStore.Read | worker.js:213-219 | without a binding the metrics are `{}` |
| Metrics.MetricsStore.Observe | worker.js:199-211 | the stored map gets the observation recorded; without a binding nothing changes |
| Ranking.EffectiveRtt | worker.js:190 | at least 1; 20 for an unseen provider |
| Ranking.Reliability | worker.js:191 | at least 0.1; 1 when unseen or never successful; at most 1 when successes ≤ requests |
| Ranking.ScoreOf | worker.js:189-192 | the score is `w + 1000 / (rtt + 5) + 50 * up` on the effective time and reliability, and always above `w + 5` |
| Ranking.ScoreMonotone | worker.js:192 | at the same weight, a lower time at no lower reliability, or a higher reliability at no higher time, gives a strictly higher score |
| Ranking.InsertSorted | worker.js:195 | inserting into a sorted list keeps it sorted |
| Ranking.InsertMultiset | worker.js:195 | inserting adds exactly the one element |
| Ranking.InsertWithScore | worker.js:195 | an inserted element goes after the elements of equal score |
| Ranking.SortDescSorted | worker.js:195 | the sort yields non-increasing scores |
| Ranking.SortDescPermutation | worker.js:195 | the sort yields a permutation of its input |
| Ranking.SortDescStable | worker.js:195 | elements of equal score keep their relative order |
| Ranking.SortDescOfSorted | worker.js:195 | a list already in order is unchanged |
| Ranking.RankProperties | worker.js:186-197 | the ranking holds all six providers, sorted, a permutation of the scored list (`ScoreAll`: one `ScoreOne` per provider, in configuration order), ties in configuration order |
| Ranking.UnseenScore | worker.js:190-192 | an unseen provider scores its weight plus 90 |
| Ranking.NoSuccessFullCredit | worker.js:191 | a provider seen but never successful gets the full 50 points for reliability |
| Ranking.EmptyMetricsRank | worker.js:186-197 | with no metrics the ranking is the configuration order, scores weight plus 90 |
| Ranking.InsertInPlace | worker.js:195 | the adjacent-swap pass inserts element `i` into the sorted prefix |
| Ranking.SortByScore | worker.js:195 | the in-place sort leaves the reference sort of the old contents |
| Ranking.Ranked | worker.js:186-197 | returns the ranking of the metrics the store reads |
| Resolution.Deadline | worker.js:170 | the abort deadline is 800 ms for short calls and 1200 ms otherwise |
| Resolution.Fetched | worker.js:173-183 | a thrown call becomes status 599, which is not ok; a reply is returned as it is |
| Resolution.FetchUp | worker.js:166-184 | returns the reply or the synthetic 599, recording the measured time and `ok`, or 2400 ms and false after a throw (`ObservedRtt`, `ObservedOk`) |
| Resolution.FirstOk | worker.js:159-162 | the index of the first ok outcome: all before it failed, and it is ok unless there is none |
| Resolution.FirstResponse | worker.js:157-164 | none exactly when every outcome failed; otherwise an ok response |
| Resolution.Attempts | worker.js:159-162 | the calls made stop at and include the first ok one: every earlier one failed; with no ok outcome all are made |
| Resolution.ObserveAllUntouched | worker.js:159-162 | a provider not attempted keeps its metrics entry: nothing is observed after the first ok call |
| Resolution.ObserveAllWellFormed | worker.js:159-162 | the observations keep the metrics consistent |
| Resolution.SequentialResult | worker.js:157-164 | none exactly when every ranked provider fails; otherwise an ok response |
| Resolution.SequentialPicksFirstOk | worker.js:157-164 | the response returned is that of the first provider in ranked order that answers ok |
| Resolution.TryInOrder | worker.js:159-163 | the loop returns the first ok response among the full-deadline calls to the providers in list order (`Outcomes`) and records exactly the calls up to it |
| Resolution.Sequential | worker.js:157-164 | ranks once, then tries providers in order; the result and the metrics are those of the failover |
| Resolution.Includes | worker.js:88 | `s.includes(h)` holds exactly when `h` occurs in `s` at some offset |
| Resolution.SomeHint | worker.js:88 | holds exactly when some hint occurs in the name |
| Resolution.IsGaming | worker.js:16-18 | a query is gaming exactly when its name is non-empty and contains one of the 37 hints |
| Resolution.SteamIsGaming | worker.js:88 | "store.steampowered.com" is gaming |
| Resolution.SubstringMatchIsLoose | worker.js:88 | "unicode.org" counts as gaming (it contains "cod") |
| Resolution.MaxAge | worker.js:129 | `max-age` is 600 for gaming queries, 300 otherwise |
| Resolution.TtlChoice | worker.js:102 | a response that is not ok gets the negative TTL 60 |
| Resolution.Decide | worker.js:99-105 | no response gives 502, no max-age and no cache write; otherwise the upstream status and body with the max-age, cached exactly when ok |
| Resolution.MaxAgeIgnoresRecordTtl | worker.js:102-103 | an ok answer whose records give TTL 100 is still served with max-age 300 |
| Resolution.Doh | worker.js:87-105 | the answer is the decision on the race result for gaming names and on the sequential result otherwise; for other names the metrics afterwards are those the failover records |

## Left out

- `race` (worker.js:142-155) runs its calls concurrently (`Promise.any`), and the model has no concurrency. `Doh` takes the race's result as a parameter. The metrics the racing calls record are not modelled.
- Resolution.Doh: for a gaming query it does not state the metrics updates that `race` makes, since `race` is not modelled.
- The HTTP side of `doh` (worker.js:72-86, 89-96) is not modelled: GET and POST handling, the 400, 415 and 405 replies, the cache lookup and its hit path, `buildCacheKeyUrl` and the CORS headers. The cache write of line 104 is the `cached` flag of `Resolution.Answer`.
- `resolveName` (worker.js:108-124), `stats`, `bench`, `health`, `warm`, the scheduled handler, the landing page and routing are outside the core.
- Time and randomness are not modelled. `Date.now` and `setTimeout` become the oracle's round-trip time and the deadline it receives. `Math.random` becomes the `id` parameter of `BuildQuery`.
- The key-value store is seen only as the map its JSON value parses to. A JSON parse error (read as `{}`), a failing `put` and interleaved read-modify-write cycles of concurrent requests are not modelled.
- Metrics.Smoothed: it computes the rounding exactly. The source rounds a floating-point sum, which can differ by 1 at an exact half.
- Ranking.ScoreOf: scores are reals, not IEEE doubles. Two scores that differ only by rounding may break ties differently.
- DnsCodec.Lower: it lower-cases only Latin-1 letters. Decoded names hold only characters below 256, so for extracted names this is the whole of `toLowerCase`.
- DnsCodec.BuildQuery: names are sequences of Unicode scalar values. JavaScript counts a character outside the Basic Multilingual Plane as two UTF-16 units, so lengths differ for such names.
- DnsCodec.QnameRoundTrip: it is stated for names of ASCII labels of 1 to 63 characters and at most 253 characters in all. Other names are encoded, but need not read back the same.
- `withDoHHeaders` (worker.js:126-134) appears only through its `max-age` value and the status and body it copies. The other response headers are not modelled.
