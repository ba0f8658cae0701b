/** The DNS wire codec of the gateway (worker.js `qtype`, `buildQuery`,
    `safeExtractQname`, `dnsTtlOrDefault`): a query message laid out as in
    RFC 1035 section 4.1.1 (header) and section 4.1.2 (question), the
    question name read back without following compression pointers
    (RFC 1035 section 4.1.4), and a TTL picked from the answer records
    (RFC 1035 section 4.1.3). */
module DnsCodec {
  import opened Wrappers
  import opened Bytes
  import Base64Url

  /** A 16-bit field: the transaction id and the QTYPE. */
  type u16 = x: int | 0 <= x < 0x1_0000

  // ---------------------------------------------------------------------
  // qtype
  // ---------------------------------------------------------------------

  /** The record-type mnemonics `qtype` knows besides the default A. */
  const KnownTypes: set<string> := {"AAAA", "CNAME", "TXT", "MX", "NS"}

  /** The mnemonic of a QTYPE code of RFC 1035 section 3.2.2 (and AAAA of
      RFC 3596 section 2.1); every other code reads as "A". */
  function TypeName(code: int): string {
    if code == 28 then "AAAA"
    else if code == 5 then "CNAME"
    else if code == 16 then "TXT"
    else if code == 15 then "MX"
    else if code == 2 then "NS"
    else "A"
  }

  /** worker.js `qtype`: a mnemonic to its QTYPE code; anything unknown is A = 1. */
  function QType(t: string): (code: u16)
    ensures code in {1, 2, 5, 15, 16, 28}
    ensures t in KnownTypes ==> TypeName(code) == t
    ensures t !in KnownTypes ==> code == 1
  {
    if t == "AAAA" then 28
    else if t == "CNAME" then 5
    else if t == "TXT" then 16
    else if t == "MX" then 15
    else if t == "NS" then 2
    else 1
  }

  // ---------------------------------------------------------------------
  // Names: String.prototype.split(".") and Array.prototype.join(".")
  // ---------------------------------------------------------------------

  /** `ls.join(".")`. */
  function Join(ls: seq<string>): string
    decreases |ls|
  {
    if |ls| == 0 then ""
    else if |ls| == 1 then ls[0]
    else Join(ls[..|ls| - 1]) + "." + ls[|ls| - 1]
  }

  /** `s.split(".")`: the pieces between the dots, so one more piece than
      there are dots (an empty string gives one empty piece). */
  function Split(s: string): (ls: seq<string>)
    ensures |ls| >= 1
    decreases |s|
  {
    if |s| == 0 then [""]
    else
      var init := Split(s[..|s| - 1]);
      var c := s[|s| - 1];
      if c == '.' then init + [""]
      else init[..|init| - 1] + [init[|init| - 1] + [c]]
  }

  /** Splitting and joining again gives the name back. */
  lemma {:induction false} SplitJoin(s: string)
    ensures Join(Split(s)) == s
    decreases |s|
  {
    if |s| > 0 {
      var s' := s[..|s| - 1];
      SplitJoin(s');
      assert s == s' + [s[|s| - 1]];
      SplitJoinStep(Split(s'), s', s[|s| - 1]);
    }
  }

  /** One more character after a name whose pieces join back to it. */
  lemma SplitJoinStep(init: seq<string>, s': string, c: char)
    requires |init| >= 1 && Join(init) == s'
    ensures c == '.' ==> Join(init + [""]) == s' + [c]
    ensures c != '.' ==> Join(init[..|init| - 1] + [init[|init| - 1] + [c]]) == s' + [c]
  {
    if c == '.' {
      JoinAppend(init, "");
    } else {
      var pre, last := init[..|init| - 1], init[|init| - 1];
      assert init == pre + [last];
      JoinExtendLast(pre, last, c);
    }
  }

  /** The number of dots in `s`. */
  function Dots(s: string): nat
    decreases |s|
  {
    if |s| == 0 then 0 else Dots(s[..|s| - 1]) + (if s[|s| - 1] == '.' then 1 else 0)
  }

  /** The pieces are exactly what lies between the dots: none of them holds
      a dot, and there is one more piece than there are dots. */
  lemma {:induction false} SplitPieces(s: string)
    ensures |Split(s)| == Dots(s) + 1
    ensures forall k :: 0 <= k < |Split(s)| ==> '.' !in Split(s)[k]
    decreases |s|
  {
    if |s| > 0 {
      SplitPieces(s[..|s| - 1]);
    }
  }

  /** Appending a character to the last piece appends it to the name. */
  lemma JoinExtendLast(pre: seq<string>, last: string, c: char)
    ensures Join(pre + [last + [c]]) == Join(pre + [last]) + [c]
  {
    JoinAppend(pre, last);
    JoinAppend(pre, last + [c]);
  }

  lemma {:induction false} JoinAppend(ls: seq<string>, l: string)
    ensures Join(ls + [l]) == if |ls| == 0 then l else Join(ls) + "." + l
  {
    assert (ls + [l])[..|ls|] == ls;
  }

  /** The joined name is as long as its pieces plus the dots between them. */
  lemma {:induction false} JoinLength(ls: seq<string>)
    requires |ls| >= 1
    ensures |Join(ls)| + 1 == LabelBytes(ls)
    decreases |ls|
  {
    if |ls| > 1 {
      JoinLength(ls[..|ls| - 1]);
    }
  }

  /** A name made of more pieces is never shorter. */
  lemma {:induction false} JoinPrefixLength(ls: seq<string>, j: nat)
    requires 1 <= j <= |ls|
    ensures |Join(ls[..j])| <= |Join(ls)|
    decreases |ls|
  {
    if j < |ls| {
      JoinPrefixLength(ls[..|ls| - 1], j);
      assert ls[..|ls| - 1][..j] == ls[..j];
    } else {
      assert ls[..j] == ls;
    }
  }

  // ---------------------------------------------------------------------
  // buildQuery
  // ---------------------------------------------------------------------

  /** The character codes of a label as the `Uint8Array` stores them
      (`charCodeAt` truncated to its low 8 bits). */
  function Codes(l: string): (b: seq<byte>)
    ensures |b| == |l|
  {
    seq(|l|, i requires 0 <= i < |l| => (l[i] as int) % 256)
  }

  /** One label: its length byte, then its bytes. */
  function EncodeLabel(l: string): seq<byte> {
    [|l| % 256] + Codes(l)
  }

  function EncodeLabels(ls: seq<string>): seq<byte>
    decreases |ls|
  {
    if |ls| == 0 then [] else EncodeLabels(ls[..|ls| - 1]) + EncodeLabel(ls[|ls| - 1])
  }

  /** The number of bytes the labels take: one length byte per label plus its characters. */
  function LabelBytes(ls: seq<string>): nat
    decreases |ls|
  {
    if |ls| == 0 then 0 else LabelBytes(ls[..|ls| - 1]) + 1 + |ls[|ls| - 1]|
  }

  /** The header of RFC 1035 section 4.1.1: ID, then flags 0x0100 (only RD
      set: a standard query, opcode 0, recursion desired), QDCOUNT = 1 and
      ANCOUNT = NSCOUNT = ARCOUNT = 0. */
  function Header(id: u16): seq<byte> {
    [id / 256, id % 256, 1, 0, 0, 1, 0, 0, 0, 0, 0, 0]
  }

  /** QTYPE, then QCLASS = IN (1), RFC 1035 section 4.1.2. */
  function QuestionTail(t: u16): seq<byte> {
    [t / 256, t % 256, 0, 1]
  }

  /** The message `buildQuery(name, t)` returns when the random id is `id`. */
  function QueryMessage(id: u16, name: string, t: u16): seq<byte> {
    Header(id) + EncodeLabels(Split(name)) + [0] + QuestionTail(t)
  }

  /** The first half of `buildQuery`: the labels of `name.split(".")`, each
      pushed as its length and its character codes, then the root byte 0. */
  method PushLabels(name: string) returns (q: seq<byte>)
    ensures q == EncodeLabels(Split(name)) + [0]
  {
    var labels := Split(name);
    q := [];
    for k := 0 to |labels|
      invariant q == EncodeLabels(labels[..k])
    {
      var l := labels[k];
      q := q + [|l| % 256];
      for i := 0 to |l|
        invariant q == EncodeLabels(labels[..k]) + [|l| % 256] + Codes(l[..i])
      {
        CodesSnoc(l, i);
        q := q + [(l[i] as int) % 256];
      }
      assert l[..|l|] == l;
      EncodeLabelsSnoc(labels, k);
    }
    assert labels[..|labels|] == labels;
    q := q + [0];
  }

  /** worker.js `buildQuery`, with the transaction id passed in instead of
      drawn from `Math.random`: the pushed labels, the header and the
      question tail written slot by slot, and the three parts copied into
      the output buffer (the `out.set` calls). */
  method BuildQuery(name: string, t: u16, id: u16) returns (out: array<byte>)
    ensures out[..] == QueryMessage(id, name, t)
  {
    var q := PushLabels(name);
    assert Header(id) + q + QuestionTail(t) == QueryMessage(id, name, t);
    var hdr := new byte[12];
    WriteHeader(hdr, id);
    var qtail := new byte[4];
    qtail[0] := t / 256; qtail[1] := t % 256;
    qtail[2] := 0; qtail[3] := 1;
    assert qtail[..] == QuestionTail(t);
    out := new byte[12 + |q| + 4];
    forall i | 0 <= i < 12 {
      out[i] := hdr[i];
    }
    forall i | 0 <= i < |q| {
      out[12 + i] := q[i];
    }
    forall i | 0 <= i < 4 {
      out[12 + |q| + i] := qtail[i];
    }
    SetThree(out, hdr, q, qtail);
    assert hdr[..] == Header(id) && qtail[..] == QuestionTail(t);
  }

  /** A buffer filled by three `set` calls at offsets 0, |h| and |h| + |m|. */
  lemma SetThree(o: array<byte>, h: array<byte>, m: seq<byte>, t: array<byte>)
    requires o.Length == h.Length + |m| + t.Length
    requires forall i :: 0 <= i < h.Length ==> o[i] == h[i]
    requires forall i :: 0 <= i < |m| ==> o[h.Length + i] == m[i]
    requires forall i :: 0 <= i < t.Length ==> o[h.Length + |m| + i] == t[i]
    ensures o[..] == h[..] + m + t[..]
  {
    forall k | 0 <= k < o.Length
      ensures o[k] == (h[..] + m + t[..])[k]
    {
      if k < h.Length {
      } else if k < h.Length + |m| {
        assert o[h.Length + (k - h.Length)] == m[k - h.Length];
      } else {
        assert o[h.Length + |m| + (k - h.Length - |m|)] == t[k - h.Length - |m|];
      }
    }
  }

  /** The twelve header slots of `buildQuery`, written one by one. */
  method WriteHeader(hdr: array<byte>, id: u16)
    requires hdr.Length == 12
    modifies hdr
    ensures hdr[..] == Header(id)
  {
    hdr[0] := id / 256; hdr[1] := id % 256;
    hdr[2] := 1; hdr[3] := 0;
    hdr[4] := 0; hdr[5] := 1;
    hdr[6] := 0; hdr[7] := 0; hdr[8] := 0; hdr[9] := 0; hdr[10] := 0; hdr[11] := 0;
  }

  lemma CodesSnoc(l: string, i: nat)
    requires i < |l|
    ensures Codes(l[..i + 1]) == Codes(l[..i]) + [(l[i] as int) % 256]
  {
  }

  lemma EncodeLabelsSnoc(ls: seq<string>, k: nat)
    requires k < |ls|
    ensures EncodeLabels(ls[..k + 1]) == EncodeLabels(ls[..k]) + EncodeLabel(ls[k])
  {
    assert ls[..k + 1][..k] == ls[..k];
  }

  lemma {:induction false} EncodeLabelsLength(ls: seq<string>)
    ensures |EncodeLabels(ls)| == LabelBytes(ls)
    decreases |ls|
  {
    if |ls| > 0 {
      EncodeLabelsLength(ls[..|ls| - 1]);
    }
  }

  /** The query is 12 header bytes, one length byte plus the characters per
      label, the root byte and 4 bytes of QTYPE and QCLASS; since the labels
      are the dot-separated pieces of the name, that is |name| + 18 bytes. */
  lemma QueryLength(id: u16, name: string, t: u16)
    ensures |QueryMessage(id, name, t)| == 12 + LabelBytes(Split(name)) + 1 + 4
    ensures |QueryMessage(id, name, t)| == |name| + 18
  {
    EncodeLabelsLength(Split(name));
    JoinLength(Split(name));
    SplitJoin(name);
  }

  /** Reading the fixed fields of the query back: the id, the flags with
      only RD set, QDCOUNT = 1, the other counts 0, the root piece, QTYPE and
      QCLASS = IN. */
  lemma QueryFields(id: u16, name: string, t: u16)
    ensures var m := QueryMessage(id, name, t);
      && |m| >= 17
      && U16At(m, 0) == id
      && m[2] == 1 && m[3] == 0
      && U16At(m, 4) == 1
      && U16At(m, 6) == 0 && U16At(m, 8) == 0 && U16At(m, 10) == 0
      && m[|m| - 5] == 0
      && U16At(m, |m| - 4) == t
      && U16At(m, |m| - 2) == 1
  {
    QueryLength(id, name, t);
  }

  // ---------------------------------------------------------------------
  // safeExtractQname
  // ---------------------------------------------------------------------

  /** `toLowerCase` on the characters a decoded name can hold (codes below
      256): A-Z and the Latin-1 capitals U+00C0..U+00DE except U+00D7. */
  /** The upper-case letters of Latin-1: A-Z and U+00C0 to U+00DE except U+00D7. */
  predicate IsUpper(c: char) {
    ('A' <= c <= 'Z') || ('\U{00C0}' <= c <= '\U{00DE}' && c != '\U{00D7}')
  }

  function LowerChar(c: char): char {
    if IsUpper(c) then (c as int + 32) as char else c
  }

  /** `toLowerCase` on characters below U+0100. */
  function Lower(s: string): (r: string)
    ensures |r| == |s|
  {
    seq(|s|, i requires 0 <= i < |s| => LowerChar(s[i]))
  }

  /** Lower-casing leaves no upper-case letter: each one becomes its
      lower-case form, 32 code points on, and nothing else changes; so
      lower-casing twice is lower-casing once. */
  lemma LowerLetters(s: string)
    ensures forall i :: 0 <= i < |s| ==> !IsUpper(Lower(s)[i])
    ensures forall i :: 0 <= i < |s| && !IsUpper(s[i]) ==> Lower(s)[i] == s[i]
    ensures forall i :: 0 <= i < |s| && IsUpper(s[i]) ==> Lower(s)[i] as int == s[i] as int + 32
    ensures Lower(Lower(s)) == Lower(s)
  {
  }

  /** The names the extractor gives up at: a joined length above 253. */
  const MaxNameLength := 253

  /** A piece-length byte whose top two bits are set: a compression pointer
      (for a byte, `(len & 0xc0) === 0xc0` holds exactly when it is >= 0xC0). */
  predicate IsPointer(len: byte) {
    len >= 0xC0
  }

  /** The loop of `safeExtractQname` from cursor `i` with the labels `out`
      read so far: `None` is the early `return ""` at a compression pointer.
      It stops at a zero length byte or at the end of the buffer; a piece is
      cut short at the end of the buffer; the piece that takes the joined
      name past 253 characters is kept and ends the loop. */
  function Scan(buf: seq<byte>, i: nat, out: seq<string>): Option<seq<string>>
    decreases |buf| - i
  {
    if i >= |buf| then Some(out)
    else
      var len := buf[i];
      if len == 0 then Some(out)
      else if IsPointer(len) then None
      else
        var end := Min(i + 1 + len, |buf|);
        var out' := out + [FromBytes(buf[i + 1..end])];
        if |Join(out')| > MaxNameLength then Some(out') else Scan(buf, end, out')
  }

  /** The name `safeExtractQname` returns for a decoded buffer. */
  function Qname(buf: seq<byte>): (name: string)
    ensures |buf| <= 12 ==> name == ""
  {
    match Scan(buf, 12, [])
    case None => ""
    case Some(ls) => Lower(Join(ls))
  }

  /** What `safeExtractQname(b64)` returns: "" when decoding throws. */
  function ExtractQname(b64: string): (name: string)
    ensures Base64Url.Decode(b64).None? ==> name == ""
  {
    match Base64Url.Decode(b64)
    case None => ""
    case Some(buf) => Qname(buf)
  }

  /** worker.js `safeExtractQname`. */
  method SafeExtractQname(b64: string) returns (name: string)
    ensures name == ExtractQname(b64)
  {
    var decoded := Base64Url.B64UrlDecode(b64);
    if decoded.None? {
      return "";
    }
    name := ScanName(decoded.value);
  }

  /** The loop of `safeExtractQname` over the decoded bytes. */
  method ScanName(buf: array<byte>) returns (name: string)
    ensures name == Qname(buf[..])
  {
    ghost var bytes := buf[..];
    var i := 12;
    var out: seq<string> := [];
    while i < buf.Length
      invariant 12 <= i
      invariant Scan(bytes, i, out) == Scan(bytes, 12, [])
      decreases buf.Length - i
    {
      var len := buf[i];
      if len == 0 {
        return Lower(Join(out));
      }
      if IsPointer(len) {
        return "";
      }
      var piece, end := ReadPiece(buf, i + 1, len);
      ScanStep(bytes, i, out, piece, end);
      out := out + [piece];
      i := end;
      if |Join(out)| > MaxNameLength {
        return Lower(Join(out));
      }
    }
    name := Lower(Join(out));
  }

  /** The inner loop of `safeExtractQname`: up to `len` bytes from `i` on,
      fewer at the end of the buffer. */
  method ReadPiece(buf: array<byte>, i0: nat, len: nat) returns (piece: string, i: nat)
    requires i0 <= buf.Length
    ensures i == Min(i0 + len, buf.Length)
    ensures piece == FromBytes(buf[i0..i])
  {
    piece := [];
    i := i0;
    var j := 0;
    while j < len && i < buf.Length
      invariant 0 <= j <= len && i == i0 + j <= buf.Length
      invariant piece == FromBytes(buf[i0..i])
    {
      assert buf[i0..i + 1] == buf[i0..i] + [buf[i]];
      piece := piece + [buf[i] as char];
      i := i + 1;
      j := j + 1;
    }
  }

  /** One turn of the extractor's loop at a length byte that is neither 0
      nor a pointer. */
  lemma ScanStep(buf: seq<byte>, i: nat, out: seq<string>, piece: string, end: nat)
    requires i < |buf| && buf[i] != 0 && !IsPointer(buf[i])
    requires end == Min(i + 1 + buf[i], |buf|) && piece == FromBytes(buf[i + 1..end])
    ensures Scan(buf, i, out) ==
      if |Join(out + [piece])| > MaxNameLength then Some(out + [piece]) else Scan(buf, end, out + [piece])
  {
  }

  /** Labels the extractor reads back unchanged: 1 to 191 bytes long (so the
      length byte is neither 0 nor a pointer) and made of byte-sized
      characters. */
  predicate PlainLabels(ls: seq<string>) {
    forall k :: 0 <= k < |ls| ==> 1 <= |ls[k]| < 0xC0 && IsBinary(ls[k])
  }

  lemma {:induction false} EncodeLabelsAppend(a: seq<string>, b: seq<string>)
    ensures EncodeLabels(a + b) == EncodeLabels(a) + EncodeLabels(b)
    decreases |b|
  {
    if |b| == 0 {
      assert a + b == a;
    } else {
      var b', l := b[..|b| - 1], b[|b| - 1];
      assert b == b' + [l];
      assert a + b == (a + b') + [l];
      EncodeLabelsAppend(a, b');
      EncodeLabelsPush(a + b', l);
      EncodeLabelsPush(b', l);
    }
  }

  lemma EncodeLabelsPush(ls: seq<string>, l: string)
    ensures EncodeLabels(ls + [l]) == EncodeLabels(ls) + EncodeLabel(l)
  {
    assert (ls + [l])[..|ls|] == ls;
  }

  lemma CodesOfBinary(l: string)
    requires IsBinary(l)
    ensures FromBytes(Codes(l)) == l
  {
  }

  /** One turn of the extractor's loop over a plain label that fits in the buffer. */
  lemma ScanUnfold(buf: seq<byte>, i: nat, out: seq<string>, l: string)
    requires i < |buf| && 1 <= buf[i] < 0xC0 && i + 1 + buf[i] <= |buf|
    requires FromBytes(buf[i + 1..i + 1 + buf[i]]) == l
    ensures Scan(buf, i, out) ==
      if |Join(out + [l])| > MaxNameLength then Some(out + [l]) else Scan(buf, i + 1 + buf[i], out + [l])
  {
  }

  /** An encoded label read back at its offset. */
  lemma ReadLabel(buf: seq<byte>, pre: seq<byte>, l: string, post: seq<byte>)
    requires 1 <= |l| < 0xC0 && IsBinary(l)
    requires buf == pre + EncodeLabel(l) + post
    ensures |pre| < |buf| && buf[|pre|] == |l| && |pre| + 1 + |l| <= |buf|
    ensures FromBytes(buf[|pre| + 1..|pre| + 1 + |l|]) == l
  {
    var i := |pre|;
    var end := i + 1 + |l|;
    assert |l| % 256 == |l|;
    assert buf[i] == |l| by {
      assert buf[i] == EncodeLabel(l)[0];
    }
    assert buf[i + 1..end] == Codes(l) by {
      assert buf[i + 1..end] == EncodeLabel(l)[1..];
    }
    CodesOfBinary(l);
  }

  /** The encoded list seen around its label `k`. */
  lemma Regroup(head: seq<byte>, ls: seq<string>, rest: seq<byte>, k: nat)
    requires k < |ls|
    ensures head + EncodeLabels(ls) + rest
         == (head + EncodeLabels(ls[..k])) + EncodeLabel(ls[k]) + (EncodeLabels(ls[k + 1..]) + rest)
    ensures |head + EncodeLabels(ls[..k])| + 1 + |ls[k]| == |head + EncodeLabels(ls[..k + 1])|
  {
    var a, l, b := EncodeLabels(ls[..k]), EncodeLabel(ls[k]), EncodeLabels(ls[k + 1..]);
    EncodeLabelsSnoc(ls, k);
    EncodeLabelsAppend(ls[..k + 1], ls[k + 1..]);
    assert ls[..k + 1] + ls[k + 1..] == ls;
    assert EncodeLabels(ls) == a + l + b;
    SeqAssoc(head, a, l, b, rest);
  }

  lemma SeqAssoc<T>(h: seq<T>, a: seq<T>, l: seq<T>, b: seq<T>, r: seq<T>)
    ensures h + (a + l + b) + r == (h + a) + l + (b + r)
  {
  }

  /** The extractor walks an encoded label list label by label: from label
      `k` on it either reaches the end of the list or, when the whole name
      exceeds 253 characters, stops right after the last label. */
  lemma {:induction false} ScanLabels(buf: seq<byte>, head: seq<byte>, ls: seq<string>, rest: seq<byte>, k: nat)
    requires buf == head + EncodeLabels(ls) + rest
    requires PlainLabels(ls) && k < |ls|
    requires forall j :: 1 <= j < |ls| ==> |Join(ls[..j])| <= MaxNameLength
    ensures Scan(buf, |head + EncodeLabels(ls[..k])|, ls[..k])
         == if |Join(ls)| > MaxNameLength then Some(ls) else Scan(buf, |head + EncodeLabels(ls)|, ls)
    decreases |ls| - k
  {
    ScanLabelStep(buf, head, ls, rest, k);
    if k + 1 < |ls| {
      ScanLabels(buf, head, ls, rest, k + 1);
    } else {
      assert ls[..k + 1] == ls;
    }
  }

  /** The extractor reads label `k` of an encoded label list. */
  lemma ScanLabelStep(buf: seq<byte>, head: seq<byte>, ls: seq<string>, rest: seq<byte>, k: nat)
    requires buf == head + EncodeLabels(ls) + rest
    requires PlainLabels(ls) && k < |ls|
    ensures Scan(buf, |head + EncodeLabels(ls[..k])|, ls[..k])
         == if |Join(ls[..k + 1])| > MaxNameLength then Some(ls[..k + 1])
            else Scan(buf, |head + EncodeLabels(ls[..k + 1])|, ls[..k + 1])
  {
    var p := |head + EncodeLabels(ls[..k])|;
    Regroup(head, ls, rest, k);
    ReadLabel(buf, head + EncodeLabels(ls[..k]), ls[k], EncodeLabels(ls[k + 1..]) + rest);
    ScanUnfold(buf, p, ls[..k], ls[k]);
    assert ls[..k] + [ls[k]] == ls[..k + 1];
  }

  /** Every proper prefix of a name of at most 253 characters is that short too. */
  lemma ShortPrefixes(ls: seq<string>)
    requires |ls| >= 1 && |Join(ls)| <= MaxNameLength
    ensures forall j :: 1 <= j < |ls| ==> |Join(ls[..j])| <= MaxNameLength
  {
    forall j | 1 <= j < |ls| ensures |Join(ls[..j])| <= MaxNameLength {
      JoinPrefixLength(ls, j);
    }
  }

  /** A well-formed list of labels, encoded after a 12-byte header and
      followed by `rest`, is read back in full unless `rest` starts with a
      pointer. */
  lemma ScanAll(head: seq<byte>, ls: seq<string>, rest: seq<byte>)
    requires |head| == 12 && PlainLabels(ls) && |ls| >= 1 && |Join(ls)| <= MaxNameLength
    ensures Scan(head + EncodeLabels(ls) + rest, 12, []) == Scan(head + EncodeLabels(ls) + rest, |head + EncodeLabels(ls)|, ls)
  {
    var buf := head + EncodeLabels(ls) + rest;
    ShortPrefixes(ls);
    assert ls[..0] == [];
    assert |head + EncodeLabels(ls[..0])| == 12;
    ScanLabels(buf, head, ls, rest, 0);
  }

  /** `(x + y)[|x|]` is the first element of `y`. */
  lemma IndexAfter(x: seq<byte>, y: seq<byte>)
    requires |y| >= 1
    ensures (x + y)[|x|] == y[0]
  {
  }

  lemma ScanStopsAt0(buf: seq<byte>, i: nat, out: seq<string>)
    requires i < |buf| && buf[i] == 0
    ensures Scan(buf, i, out) == Some(out)
  {
  }

  lemma ScanStopsAtPointer(buf: seq<byte>, i: nat, out: seq<string>)
    requires i < |buf| && IsPointer(buf[i])
    ensures Scan(buf, i, out) == None
  {
  }

  /** An encoded label list after a 12-byte header, ended by the root byte,
      is read back as the joined name. */
  lemma QnameOfLabels(head: seq<byte>, ls: seq<string>, rest: seq<byte>)
    requires |head| == 12 && PlainLabels(ls) && |ls| >= 1 && |Join(ls)| <= MaxNameLength
    requires |rest| >= 1 && rest[0] == 0
    ensures Qname(head + EncodeLabels(ls) + rest) == Lower(Join(ls))
  {
    ScanAll(head, ls, rest);
    StopAfterLabels(head + EncodeLabels(ls), rest, ls);
    QnameOfScan(head + EncodeLabels(ls) + rest, ls);
  }

  lemma StopAfterLabels(x: seq<byte>, rest: seq<byte>, ls: seq<string>)
    requires |rest| >= 1 && rest[0] == 0
    ensures Scan(x + rest, |x|, ls) == Some(ls)
  {
    IndexAfter(x, rest);
    ScanStopsAt0(x + rest, |x|, ls);
  }

  lemma QnameOfScan(buf: seq<byte>, ls: seq<string>)
    requires Scan(buf, 12, []) == Some(ls)
    ensures Qname(buf) == Lower(Join(ls))
  {
  }

  /** A name the round trip applies to: at most 253 characters, every label
      1 to 63 ASCII characters. */
  predicate WellFormedName(n: string) {
    && |n| <= MaxNameLength
    && forall k :: 0 <= k < |Split(n)| ==>
         1 <= |Split(n)[k]| <= 63 && forall j :: 0 <= j < |Split(n)[k]| ==> Split(n)[k][j] as int < 128
  }

  /** Round trip: extracting the question name of an encoded query gives the
      name back, lower-cased. */
  lemma QnameRoundTrip(id: u16, n: string, t: u16)
    requires WellFormedName(n)
    ensures ExtractQname(Base64Url.Encode(QueryMessage(id, n, t))) == Lower(n)
  {
    QueryRegroup(id, n, t);
    WellFormedPlain(n);
    QnameOfLabels(Header(id), Split(n), [0] + QuestionTail(t));
    ExtractOfEncode(QueryMessage(id, n, t));
  }

  lemma QueryRegroup(id: u16, n: string, t: u16)
    ensures QueryMessage(id, n, t) == Header(id) + EncodeLabels(Split(n)) + ([0] + QuestionTail(t))
  {
  }

  lemma ExtractOfEncode(m: seq<byte>)
    ensures ExtractQname(Base64Url.Encode(m)) == Qname(m)
  {
    Base64Url.RoundTrip(m);
  }

  /** The pieces of a well-formed name are plain labels and join back to it. */
  lemma WellFormedPlain(n: string)
    requires WellFormedName(n)
    ensures PlainLabels(Split(n)) && Join(Split(n)) == n && |Join(Split(n))| <= MaxNameLength
  {
    SplitJoin(n);
  }

  /** A compression pointer where the next label length should be, even
      after earlier labels were decoded, makes the whole name "". */
  lemma PointerYieldsEmpty(head: seq<byte>, ls: seq<string>, rest: seq<byte>)
    requires |head| == 12 && PlainLabels(ls) && |Join(ls)| <= MaxNameLength
    requires |rest| >= 1 && IsPointer(rest[0])
    ensures Qname(head + EncodeLabels(ls) + rest) == ""
  {
    var buf := head + EncodeLabels(ls) + rest;
    IndexAfter(head + EncodeLabels(ls), rest);
    ScanStopsAtPointer(buf, |head + EncodeLabels(ls)|, ls);
    if |ls| >= 1 {
      ScanAll(head, ls, rest);
    } else {
      assert EncodeLabels(ls) == [];
    }
  }

  /** The label that takes the joined name past 253 characters is still part
      of the result, and nothing after it is read. */
  lemma OverlongNameKeepsLabel(head: seq<byte>, ls: seq<string>, rest: seq<byte>)
    requires |head| == 12 && PlainLabels(ls) && |ls| >= 2
    requires |Join(ls[..|ls| - 1])| <= MaxNameLength < |Join(ls)|
    ensures Qname(head + EncodeLabels(ls) + rest) == Lower(Join(ls))
  {
    var init := ls[..|ls| - 1];
    ShortPrefixes(init);
    forall j | 1 <= j < |ls| ensures |Join(ls[..j])| <= MaxNameLength {
      if j < |ls| - 1 {
        assert init[..j] == ls[..j];
      } else {
        assert ls[..j] == init;
      }
    }
    assert ls[..0] == [];
    ScanLabels(head + EncodeLabels(ls) + rest, head, ls, rest, 0);
  }

  /** A label cut short by the end of the buffer yields the bytes that are there. */
  lemma TruncatedLabel(buf: seq<byte>)
    requires |buf| > 13 && 0 < buf[12] < 0xC0 && |buf| < 13 + buf[12]
    ensures Qname(buf) == Lower(FromBytes(buf[13..]))
  {
    var out := [FromBytes(buf[13..])];
    assert buf[13..Min(13 + buf[12], |buf|)] == buf[13..];
    assert [] + out == out;
    assert Scan(buf, |buf|, out) == Some(out);
    assert Join(out) == FromBytes(buf[13..]);
  }

  // ---------------------------------------------------------------------
  // dnsTtlOrDefault
  // ---------------------------------------------------------------------

  /** `(buf[i] << 8) | buf[i+1]`. */
  function U16At(buf: seq<byte>, i: int): nat {
    At(buf, i) * 256 + At(buf, i + 1)
  }

  /** The big-endian unsigned 32-bit value of four bytes. */
  function Unsigned32(b0: byte, b1: byte, b2: byte, b3: byte): int {
    b0 * 0x100_0000 + b1 * 0x1_0000 + b2 * 0x100 + b3
  }

  /** `(b0<<24)|(b1<<16)|(b2<<8)|b3`: JavaScript's bitwise operators work on
      signed 32-bit integers. */
  function Signed32(b0: byte, b1: byte, b2: byte, b3: byte): int {
    var v := Unsigned32(b0, b1, b2, b3);
    if v >= 0x8000_0000 then v - 0x1_0000_0000 else v
  }

  /** The value is the two's complement reading of the four bytes: the one
      value in the signed 32-bit range that agrees with the unsigned one
      modulo 2^32, negative exactly when the top bit is set. */
  lemma Signed32Reading(b0: byte, b1: byte, b2: byte, b3: byte)
    ensures -0x8000_0000 <= Signed32(b0, b1, b2, b3) < 0x8000_0000
    ensures (Unsigned32(b0, b1, b2, b3) - Signed32(b0, b1, b2, b3)) % 0x1_0000_0000 == 0
    ensures Signed32(b0, b1, b2, b3) < 0 <==> b0 >= 0x80
  {
  }

  /** `Math.min(Math.max(ttl, 30), 1800)`. */
  function Clamp(ttl: int): (r: int)
    ensures 30 <= r <= 1800
    ensures 30 <= ttl <= 1800 ==> r == ttl
  {
    if ttl < 30 then 30 else if ttl > 1800 then 1800 else ttl
  }

  /** `while (buf[i] && i < buf.length) i += 1 + buf[i];`: skips labels up to
      a zero byte or past the end, following no pointer. */
  function SkipName(buf: seq<byte>, i: nat): (j: nat)
    ensures j >= i && At(buf, j) == 0
    decreases |buf| - i
  {
    if i < |buf| && buf[i] != 0 then SkipName(buf, i + 1 + buf[i]) else i
  }

  /** The question loop: each question is a name, its end byte and 4 bytes
      of QTYPE and QCLASS. */
  function SkipQuestions(buf: seq<byte>, i: nat, q: nat): nat
    decreases q
  {
    if q == 0 then i else SkipQuestions(buf, SkipName(buf, i) + 1 + 4, q - 1)
  }

  /** The end of an answer record's owner name: a pointer takes 2 bytes. */
  function OwnerEnd(buf: seq<byte>, i: nat): nat {
    if IsPointer(At(buf, i)) then i + 2 else SkipName(buf, i) + 1
  }

  /** The TTL of the answer record at `i`, after TYPE and CLASS. */
  function RecordTtl(buf: seq<byte>, i: nat): int {
    var j := OwnerEnd(buf, i) + 4;
    Signed32(At(buf, j), At(buf, j + 1), At(buf, j + 2), At(buf, j + 3))
  }

  /** Where the next answer record starts: past the TTL, RDLENGTH and RDATA. */
  function RecordEnd(buf: seq<byte>, i: nat): nat {
    var j := OwnerEnd(buf, i) + 8;
    j + 2 + U16At(buf, j)
  }

  /** The answer loop from cursor `i` with `a` records to go and `best` so far. */
  function Answers(buf: seq<byte>, i: nat, a: nat, best: int): (r: int)
    ensures r == best || 30 <= r <= 1800
    decreases a
  {
    if a == 0 || i >= |buf| then best
    else
      var ttl := RecordTtl(buf, i);
      Answers(buf, RecordEnd(buf, i), a - 1, if ttl > 0 then Clamp(ttl) else best)
  }

  /** What `dnsTtlOrDefault` returns for the response bytes `buf`. */
  function TtlOrDefault(buf: seq<byte>, dflt: int): (r: int)
    ensures r == dflt || 30 <= r <= 1800
    ensures U16At(buf, 6) == 0 ==> r == dflt
  {
    Answers(buf, SkipQuestions(buf, 12, U16At(buf, 4)), U16At(buf, 6), dflt)
  }

  /** The loop `while (buf[i] && i < buf.length) i += 1 + buf[i];`, which
      occurs twice in `dnsTtlOrDefault`. */
  method SkipLabels(buf: seq<byte>, i0: nat) returns (i: nat)
    ensures i == SkipName(buf, i0)
  {
    i := i0;
    while At(buf, i) != 0 && i < |buf|
      invariant SkipName(buf, i) == SkipName(buf, i0)
      decreases |buf| - i
    {
      i := i + 1 + buf[i];
    }
  }

  /** worker.js `dnsTtlOrDefault` on the bytes of the response body. */
  method DnsTtlOrDefault(buf: seq<byte>, dflt: int) returns (best: int)
    ensures best == TtlOrDefault(buf, dflt)
  {
    var i := 4;
    var qdcount := At(buf, i) * 256 + At(buf, i + 1);
    i := i + 2;
    var ancount := At(buf, i) * 256 + At(buf, i + 1);
    i := i + 6;
    i := 12;
    assert qdcount == U16At(buf, 4) && ancount == U16At(buf, 6);
    for q := 0 to qdcount
      invariant i >= 0
      invariant SkipQuestions(buf, i, qdcount - q) == SkipQuestions(buf, 12, qdcount)
    {
      ghost var start := i;
      i := SkipLabels(buf, i);
      i := i + 1;
      i := i + 4;
      SkipQuestionsStep(buf, start, qdcount - q);
    }
    best := dflt;
    ghost var first := i;
    for a := 0 to ancount
      invariant i >= 0
      invariant Answers(buf, i, ancount - a, best) == Answers(buf, first, ancount, dflt)
    {
      if i >= |buf| {
        AnswersStop(buf, i, ancount - a, best);
        break;
      }
      AnswersStep(buf, i, ancount - a, best);
      var ttl: int;
      ttl, i := SkipRecord(buf, i);
      if ttl > 0 {
        best := Clamp(ttl);
      }
    }
  }

  lemma SkipQuestionsStep(buf: seq<byte>, i: nat, q: nat)
    requires q > 0
    ensures SkipQuestions(buf, i, q) == SkipQuestions(buf, SkipName(buf, i) + 1 + 4, q - 1)
  {
  }

  lemma AnswersStop(buf: seq<byte>, i: nat, a: nat, best: int)
    requires i >= |buf|
    ensures Answers(buf, i, a, best) == best
  {
  }

  lemma AnswersStep(buf: seq<byte>, i: nat, a: nat, best: int)
    requires a > 0 && i < |buf|
    ensures Answers(buf, i, a, best) ==
      Answers(buf, RecordEnd(buf, i), a - 1, if RecordTtl(buf, i) > 0 then Clamp(RecordTtl(buf, i)) else best)
  {
  }

  /** The body of the answer loop of `dnsTtlOrDefault`: the owner name (2
      bytes for a pointer), TYPE, CLASS, the TTL, RDLENGTH and RDATA. */
  method SkipRecord(buf: seq<byte>, i0: nat) returns (ttl: int, i: nat)
    ensures ttl == RecordTtl(buf, i0) && i == RecordEnd(buf, i0)
  {
    i := i0;
    if IsPointer(At(buf, i)) {
      i := i + 2;
    } else {
      i := SkipLabels(buf, i);
      i := i + 1;
    }
    i := i + 2;
    i := i + 2;
    ttl := Signed32(At(buf, i), At(buf, i + 1), At(buf, i + 2), At(buf, i + 3));
    i := i + 4;
    var rdlen := At(buf, i) * 256 + At(buf, i + 1);
    i := i + 2 + rdlen;
  }

  /** The TTLs of the answer records the loop processes, in order. */
  function RecordTtls(buf: seq<byte>, i: nat, a: nat): seq<int>
    decreases a
  {
    if a == 0 || i >= |buf| then [] else [RecordTtl(buf, i)] + RecordTtls(buf, RecordEnd(buf, i), a - 1)
  }

  /** The last positive value of a sequence, if any. */
  function LastPositive(s: seq<int>): (r: Option<int>)
    ensures r.None? <==> forall k :: 0 <= k < |s| ==> s[k] <= 0
    ensures r.Some? ==> exists k :: 0 <= k < |s| && s[k] == r.value > 0 && forall j :: k < j < |s| ==> s[j] <= 0
    decreases |s|
  {
    if |s| == 0 then None
    else if s[|s| - 1] > 0 then Some(s[|s| - 1])
    else
      var init := s[..|s| - 1];
      assert forall k :: 0 <= k < |init| ==> init[k] == s[k];
      LastPositive(init)
  }

  lemma {:induction false} LastPositiveCons(x: int, s: seq<int>)
    ensures LastPositive([x] + s) == if LastPositive(s).Some? then LastPositive(s) else if x > 0 then Some(x) else None
    decreases |s|
  {
    if |s| > 0 {
      assert ([x] + s)[..|s|] == [x] + s[..|s| - 1];
      LastPositiveCons(x, s[..|s| - 1]);
    } else {
      assert [x] + s == [x];
    }
  }

  /** Last positive wins: the answer loop returns the clamped TTL of the last
      processed record whose TTL is positive, and `best` when there is none;
      it is not the minimum TTL. */
  lemma {:induction false} AnswersLastPositive(buf: seq<byte>, i: nat, a: nat, best: int)
    ensures Answers(buf, i, a, best) ==
      match LastPositive(RecordTtls(buf, i, a))
      case None => best
      case Some(t) => Clamp(t)
    decreases a
  {
    if a > 0 && i < |buf| {
      var ttl := RecordTtl(buf, i);
      var best' := if ttl > 0 then Clamp(ttl) else best;
      AnswersLastPositive(buf, RecordEnd(buf, i), a - 1, best');
      LastPositiveCons(ttl, RecordTtls(buf, RecordEnd(buf, i), a - 1));
    }
  }

  /** `dnsTtlOrDefault` is `dflt` or the clamped last positive answer TTL. */
  lemma TtlIsLastPositive(buf: seq<byte>, dflt: int)
    ensures TtlOrDefault(buf, dflt) ==
      match LastPositive(RecordTtls(buf, SkipQuestions(buf, 12, U16At(buf, 4)), U16At(buf, 6)))
      case None => dflt
      case Some(t) => Clamp(t)
  {
    AnswersLastPositive(buf, SkipQuestions(buf, 12, U16At(buf, 4)), U16At(buf, 6), dflt);
  }

  /** A TTL is positive exactly when its top bit is clear and it is not zero,
      so the TTLs that section 8 of RFC 2181 says to treat as zero (top bit
      set) are ignored. */
  lemma Signed32Positive(b0: byte, b1: byte, b2: byte, b3: byte)
    ensures Signed32(b0, b1, b2, b3) > 0 <==> b0 < 0x80 && (b0, b1, b2, b3) != (0, 0, 0, 0)
  {
  }

  /** Two answers, TTL 45 then TTL 100: the later record's TTL is chosen,
      although the earlier one is smaller. */
  lemma LaterTtlWins()
    ensures TtlOrDefault(LaterTtlExample(), 300) == 100
  {
    var buf := LaterTtlExample();
    assert U16At(buf, 4) == 0 && U16At(buf, 6) == 2;
    FirstExampleRecord(buf);
    SecondExampleRecord(buf);
  }

  lemma FirstExampleRecord(buf: seq<byte>)
    requires buf == LaterTtlExample()
    ensures Answers(buf, 12, 2, 300) == Answers(buf, 24, 1, 45)
  {
    assert buf[12] == 0xC0 && buf[18] == 0 && buf[19] == 0 && buf[20] == 0 && buf[21] == 45;
    assert buf[22] == 0 && buf[23] == 0;
    ShortPointerRecord(buf, 12, 45);
  }

  lemma SecondExampleRecord(buf: seq<byte>)
    requires buf == LaterTtlExample()
    ensures Answers(buf, 24, 1, 45) == 100
  {
    assert buf[24] == 0xC0 && buf[30] == 0 && buf[31] == 0 && buf[32] == 0 && buf[33] == 100;
    assert buf[34] == 0 && buf[35] == 0;
    ShortPointerRecord(buf, 24, 100);
  }

  /** An answer record at `i` with a pointer owner name, a small positive
      TTL `t` and no data is passed over in one step that keeps `t`. */
  lemma ShortPointerRecord(buf: seq<byte>, i: nat, t: byte)
    requires i + 12 <= |buf| && IsPointer(buf[i]) && 30 <= t
    requires buf[i + 6] == 0 && buf[i + 7] == 0 && buf[i + 8] == 0 && buf[i + 9] == t
    requires buf[i + 10] == 0 && buf[i + 11] == 0
    ensures forall a: nat, best: int :: a > 0 ==> Answers(buf, i, a, best) == Answers(buf, i + 12, a - 1, t as int)
  {
    PointerRecord(buf, i);
    SmallSigned32(t);
  }

  lemma SmallSigned32(b: byte)
    ensures Signed32(0, 0, 0, b) == b
  {
  }

  /** The layout of the answer record at `i` when its owner name is a pointer. */
  lemma PointerRecord(buf: seq<byte>, i: nat)
    requires i + 12 <= |buf| && IsPointer(buf[i])
    ensures RecordTtl(buf, i) == Signed32(buf[i + 6], buf[i + 7], buf[i + 8], buf[i + 9])
    ensures RecordEnd(buf, i) == i + 12 + U16At(buf, i + 10)
  {
  }

  /** A response with no question and two A records whose owner names are
      pointers to offset 12, with TTLs 45 and 100 and no data. */
  function LaterTtlExample(): (buf: seq<byte>)
    ensures |buf| == 36
  {
    [0, 1, 0x81, 0x80, 0, 0, 0, 2, 0, 0, 0, 0,
     0xC0, 0x0C, 0, 1, 0, 1, 0, 0, 0, 45, 0, 0,
     0xC0, 0x0C, 0, 1, 0, 1, 0, 0, 0, 100, 0, 0]
  }
}
