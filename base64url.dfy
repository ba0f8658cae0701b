/** The base64url codec of the gateway (worker.js `b64urlEncode` and
    `b64urlDecode`): base64 as in RFC 4648 section 4, rewritten to the
    URL-safe alphabet of RFC 4648 section 5, with the '=' padding removed as
    section 4.1 of RFC 8484 asks for the `dns` query parameter.

    The two browser primitives the source builds on are written out:
    `Btoa` is standard padded base64 of a binary string, `Atob` is the
    "forgiving-base64 decode" that `atob` performs (ASCII whitespace is
    dropped, one or two trailing '=' are dropped when the length is a
    multiple of 4, a length of 1 modulo 4 or a character outside the
    standard alphabet makes it throw). */
module Base64Url {
  import opened Wrappers
  import opened Bytes

  // ---------------------------------------------------------------------
  // The standard alphabet of RFC 4648 section 4 (Table 1)
  // ---------------------------------------------------------------------

  predicate IsStdChar(c: char) {
    ('A' <= c <= 'Z') || ('a' <= c <= 'z') || ('0' <= c <= '9') || c == '+' || c == '/'
  }

  predicate AllStd(s: string) {
    forall i :: 0 <= i < |s| ==> IsStdChar(s[i])
  }

  /** The character of the standard alphabet that encodes the 6-bit value `v`. */
  function StdChar(v: int): (c: char)
    requires 0 <= v < 64
    ensures IsStdChar(c)
  {
    if v < 26 then ('A' as int + v) as char
    else if v < 52 then ('a' as int + (v - 26)) as char
    else if v < 62 then ('0' as int + (v - 52)) as char
    else if v == 62 then '+'
    else '/'
  }

  /** The 6-bit value a character of the standard alphabet stands for. */
  function StdValue(c: char): (v: int)
    requires IsStdChar(c)
    ensures 0 <= v < 64
  {
    if 'A' <= c <= 'Z' then c as int - 'A' as int
    else if 'a' <= c <= 'z' then c as int - 'a' as int + 26
    else if '0' <= c <= '9' then c as int - '0' as int + 52
    else if c == '+' then 62
    else 63
  }

  lemma StdValueOfChar(v: int)
    requires 0 <= v < 64
    ensures StdValue(StdChar(v)) == v
  {
  }

  // ---------------------------------------------------------------------
  // btoa: padded standard base64 of a binary string
  // ---------------------------------------------------------------------

  /** The four characters of one full 3-byte group. */
  function Quad(b0: byte, b1: byte, b2: byte): (s: string)
    ensures |s| == 4 && AllStd(s)
  {
    [StdChar(b0 / 4), StdChar((b0 % 4) * 16 + b1 / 16), StdChar((b1 % 16) * 4 + b2 / 64), StdChar(b2 % 64)]
  }

  /** Standard base64 of `b` without its '=' padding: every 3 bytes give 4
      characters, a trailing 1 byte gives 2 and a trailing 2 bytes give 3. */
  function Unpadded(b: seq<byte>): (s: string)
    ensures AllStd(s)
    ensures |s| % 4 == (if |b| % 3 == 0 then 0 else |b| % 3 + 1)
    decreases |b|
  {
    if |b| == 0 then ""
    else if |b| == 1 then [StdChar(b[0] / 4), StdChar((b[0] % 4) * 16)]
    else if |b| == 2 then [StdChar(b[0] / 4), StdChar((b[0] % 4) * 16 + b[1] / 16), StdChar((b[1] % 16) * 4)]
    else
      var rest := Unpadded(b[3..]);
      ModStep(|b|, |rest|);
      Quad(b[0], b[1], b[2]) + rest
  }

  lemma ModStep(n: nat, m: nat)
    requires n >= 3
    ensures n % 3 == (n - 3) % 3 && (4 + m) % 4 == m % 4
  {
  }

  lemma UnpaddedCons(b: seq<byte>)
    requires |b| >= 3
    ensures Unpadded(b) == Quad(b[0], b[1], b[2]) + Unpadded(b[3..])
  {
  }

  /** The '=' characters that complete the last group to 4 characters. */
  function Padding(n: nat): string {
    if n % 3 == 1 then "==" else if n % 3 == 2 then "=" else ""
  }

  /** `btoa` on a binary string. */
  function Btoa(bin: string): string
    requires IsBinary(bin)
  {
    Unpadded(ToBytes(bin)) + Padding(|bin|)
  }

  // ---------------------------------------------------------------------
  // b64urlEncode
  // ---------------------------------------------------------------------

  /** `.replace(/\+/g, "-").replace(/\//g, "_")` on one character. */
  function UrlChar(c: char): char {
    if c == '+' then '-' else if c == '/' then '_' else c
  }

  function ToUrl(s: string): (r: string)
    ensures |r| == |s|
  {
    seq(|s|, i requires 0 <= i < |s| => UrlChar(s[i]))
  }

  /** `.replace(/=+$/g, "")`: drops the whole run of '=' at the end. */
  function StripPad(s: string): (r: string)
    decreases |s|
  {
    if |s| > 0 && s[|s| - 1] == '=' then StripPad(s[..|s| - 1]) else s
  }

  /** The characters of the base64url alphabet, RFC 4648 section 5 (Table 2). */
  predicate IsUrlChar(c: char) {
    ('A' <= c <= 'Z') || ('a' <= c <= 'z') || ('0' <= c <= '9') || c == '-' || c == '_'
  }

  /** What `b64urlEncode(u8)` returns for the bytes `b`. */
  function Encode(b: seq<byte>): string {
    StripPad(ToUrl(Btoa(FromBytes(b))))
  }

  // ---------------------------------------------------------------------
  // atob: forgiving-base64 decode
  // ---------------------------------------------------------------------

  /** ASCII whitespace as `atob` strips it: TAB, LF, FF, CR and SPACE. */
  predicate IsAsciiWhitespace(c: char) {
    c == '\t' || c == '\n' || c == '\U{000C}' || c == '\r' || c == ' '
  }

  function RemoveWhitespace(s: string): (r: string)
    ensures |r| <= |s|
    decreases |s|
  {
    if |s| == 0 then ""
    else if IsAsciiWhitespace(s[0]) then RemoveWhitespace(s[1..])
    else [s[0]] + RemoveWhitespace(s[1..])
  }

  /** Drops "==" or "=" at the end of `d` when `|d|` is a multiple of 4. */
  function StripFinalPad(d: string): string {
    if |d| % 4 == 0 && |d| >= 2 && d[|d| - 2..] == "==" then d[..|d| - 2]
    else if |d| % 4 == 0 && |d| >= 1 && d[|d| - 1] == '=' then d[..|d| - 1]
    else d
  }

  /** The bytes of standard base64 characters, 4 characters giving 3 bytes;
      a trailing 2 or 3 characters give 1 or 2 bytes, and the bits left over
      are discarded. */
  function DecodeGroups(d: string): (b: seq<byte>)
    requires AllStd(d) && |d| % 4 != 1
    decreases |d|
  {
    if |d| == 0 then []
    else if |d| == 2 then
      [StdValue(d[0]) * 4 + StdValue(d[1]) / 16]
    else if |d| == 3 then
      [StdValue(d[0]) * 4 + StdValue(d[1]) / 16, (StdValue(d[1]) % 16) * 16 + StdValue(d[2]) / 4]
    else
      [StdValue(d[0]) * 4 + StdValue(d[1]) / 16,
       (StdValue(d[1]) % 16) * 16 + StdValue(d[2]) / 4,
       (StdValue(d[2]) % 4) * 64 + StdValue(d[3])] + DecodeGroups(d[4..])
  }

  /** `atob`: `None` stands for the exception it throws. */
  function Atob(t: string): (r: Option<string>)
    ensures r.Some? ==> IsBinary(r.value)
  {
    var d := StripFinalPad(RemoveWhitespace(t));
    if |d| % 4 == 1 || !AllStd(d) then None else Some(FromBytes(DecodeGroups(d)))
  }

  // ---------------------------------------------------------------------
  // b64urlDecode
  // ---------------------------------------------------------------------

  /** `.replace(/-/g, "+").replace(/_/g, "/")` on one character. */
  function StdOf(c: char): char {
    if c == '-' then '+' else if c == '_' then '/' else c
  }

  function ToStd(s: string): (r: string)
    ensures |r| == |s|
  {
    seq(|s|, i requires 0 <= i < |s| => StdOf(s[i]))
  }

  /** The padding `b64urlDecode` restores from the length of its input. */
  function PadFor(n: nat): string {
    if n % 4 == 2 then "==" else if n % 4 == 3 then "=" else ""
  }

  /** What `b64urlDecode(s)` returns; `None` when `atob` throws. */
  function Decode(s: string): Option<seq<byte>> {
    match Atob(ToStd(s) + PadFor(|s|))
    case None => None
    case Some(bin) => Some(ToBytes(bin))
  }

  // ---------------------------------------------------------------------
  // The loops of the source
  // ---------------------------------------------------------------------

  /** worker.js `b64urlEncode`: the loop builds the binary string, then
      `btoa`, the alphabet rewrite and the padding strip. */
  method B64UrlEncode(u8: array<byte>) returns (s: string)
    ensures s == Encode(u8[..])
  {
    var bin := "";
    for i := 0 to u8.Length
      invariant bin == FromBytes(u8[..i])
    {
      bin := bin + [u8[i] as char];
    }
    assert u8[..u8.Length] == u8[..];
    s := StripPad(ToUrl(Btoa(bin)));
  }

  /** worker.js `b64urlDecode`: restores the padding, decodes, and copies the
      binary string into a fresh `Uint8Array`; `None` when `atob` throws. */
  method B64UrlDecode(s: string) returns (r: Option<array<byte>>)
    ensures r.None? <==> Decode(s).None?
    ensures r.Some? ==> Decode(s) == Some(r.value[..])
  {
    var pad := PadFor(|s|);
    var b64 := ToStd(s) + pad;
    var decoded := Atob(b64);
    if decoded.None? {
      return None;
    }
    var bin := decoded.value;
    var u8 := new byte[|bin|];
    for i := 0 to |bin|
      invariant forall k :: 0 <= k < i ==> u8[k] == bin[k] as int
    {
      u8[i] := bin[i] as int;
    }
    assert u8[..] == ToBytes(bin);
    r := Some(u8);
  }

  // ---------------------------------------------------------------------
  // Properties
  // ---------------------------------------------------------------------

  /** The length of the unpadded encoding is the ceiling of 4|b|/3. */
  lemma {:induction false} UnpaddedLength(b: seq<byte>)
    ensures |Unpadded(b)| == (4 * |b| + 2) / 3
    decreases |b|
  {
    if |b| >= 3 {
      UnpaddedLength(b[3..]);
      assert |Unpadded(b)| == 4 + |Unpadded(b[3..])|;
    }
  }

  lemma StripPadAppend(x: string, p: string)
    requires forall i :: 0 <= i < |p| ==> p[i] == '='
    requires |x| == 0 || x[|x| - 1] != '='
    ensures StripPad(x + p) == x
    decreases |p|
  {
    if |p| > 0 {
      assert (x + p)[..|x + p| - 1] == x + p[..|p| - 1];
      StripPadAppend(x, p[..|p| - 1]);
    } else {
      assert x + p == x;
    }
  }

  /** The encoder's output is the unpadded standard encoding in the URL alphabet. */
  lemma {:induction false} EncodeIsUnpadded(b: seq<byte>)
    ensures Encode(b) == ToUrl(Unpadded(b))
  {
    var u := Unpadded(b);
    var p := Padding(|b|);
    ToBytesFromBytes(b);
    assert Btoa(FromBytes(b)) == u + p;
    assert ToUrl(u + p) == ToUrl(u) + p;
    StripPadAppend(ToUrl(u), p);
  }

  /** The encoder emits only characters of the base64url alphabet (so never '='). */
  lemma EncodeAlphabet(b: seq<byte>)
    ensures forall i :: 0 <= i < |Encode(b)| ==> IsUrlChar(Encode(b)[i])
  {
    EncodeIsUnpadded(b);
  }

  /** The encoder's output has length ceil(4|b|/3). */
  lemma EncodeLength(b: seq<byte>)
    ensures |Encode(b)| == (4 * |b| + 2) / 3
  {
    EncodeIsUnpadded(b);
    UnpaddedLength(b);
  }

  /** Decoding one full group gives back its three bytes. */
  lemma QuadDecodes(b0: byte, b1: byte, b2: byte)
    ensures StdValue(Quad(b0, b1, b2)[0]) * 4 + StdValue(Quad(b0, b1, b2)[1]) / 16 == b0
    ensures (StdValue(Quad(b0, b1, b2)[1]) % 16) * 16 + StdValue(Quad(b0, b1, b2)[2]) / 4 == b1
    ensures (StdValue(Quad(b0, b1, b2)[2]) % 4) * 64 + StdValue(Quad(b0, b1, b2)[3]) == b2
  {
    var v0, v1, v2, v3 := b0 / 4, (b0 % 4) * 16 + b1 / 16, (b1 % 16) * 4 + b2 / 64, b2 % 64;
    StdValueOfChar(v0);
    StdValueOfChar(v1);
    StdValueOfChar(v2);
    StdValueOfChar(v3);
    assert v1 / 16 == b0 % 4 && v1 % 16 == b1 / 16;
    assert v2 / 4 == b1 % 16 && v2 % 4 == b2 / 64;
  }

  /** The group decoder's three bytes for a group of four characters. */
  function GroupBytes(g: string): seq<byte>
    requires |g| == 4 && AllStd(g)
  {
    [StdValue(g[0]) * 4 + StdValue(g[1]) / 16,
     (StdValue(g[1]) % 16) * 16 + StdValue(g[2]) / 4,
     (StdValue(g[2]) % 4) * 64 + StdValue(g[3])]
  }

  lemma DecodeGroupsCons(g: string, rest: string)
    requires |g| == 4 && AllStd(g) && AllStd(rest) && |rest| % 4 != 1
    ensures AllStd(g + rest) && |g + rest| % 4 != 1
    ensures DecodeGroups(g + rest) == GroupBytes(g) + DecodeGroups(rest)
  {
    var d := g + rest;
    assert d[4..] == rest;
    assert d[0] == g[0] && d[1] == g[1] && d[2] == g[2] && d[3] == g[3];
  }

  lemma OneByteDecodes(b0: byte)
    ensures DecodeGroups(Unpadded([b0])) == [b0]
  {
    StdValueOfChar(b0 / 4);
    StdValueOfChar((b0 % 4) * 16);
  }

  lemma TwoBytesDecode(b0: byte, b1: byte)
    ensures DecodeGroups(Unpadded([b0, b1])) == [b0, b1]
  {
    var v1 := (b0 % 4) * 16 + b1 / 16;
    StdValueOfChar(b0 / 4);
    StdValueOfChar(v1);
    StdValueOfChar((b1 % 16) * 4);
    assert v1 / 16 == b0 % 4;
    assert v1 % 16 == b1 / 16;
  }

  lemma {:induction false} DecodeGroupsUnpadded(b: seq<byte>)
    ensures |Unpadded(b)| % 4 != 1
    ensures DecodeGroups(Unpadded(b)) == b
    decreases |b|
  {
    if |b| == 1 {
      assert b == [b[0]];
      OneByteDecodes(b[0]);
    } else if |b| == 2 {
      assert b == [b[0], b[1]];
      TwoBytesDecode(b[0], b[1]);
    } else if |b| >= 3 {
      DecodeGroupsUnpadded(b[3..]);
      UnpaddedStep(b);
    }
  }

  lemma {:induction false} UnpaddedStep(b: seq<byte>)
    requires |b| >= 3
    requires DecodeGroups(Unpadded(b[3..])) == b[3..]
    ensures DecodeGroups(Unpadded(b)) == b
  {
    var g := Quad(b[0], b[1], b[2]);
    var rest := Unpadded(b[3..]);
    UnpaddedCons(b);
    QuadGroupBytes(b[0], b[1], b[2]);
    assert b == [b[0], b[1], b[2]] + b[3..];
    DecodeConcat(Unpadded(b), g, rest, [b[0], b[1], b[2]], b[3..], b);
  }

  /** Decoding a group followed by more groups. */
  lemma DecodeConcat(u: string, g: string, rest: string, x: seq<byte>, y: seq<byte>, b: seq<byte>)
    requires |g| == 4 && AllStd(g) && AllStd(rest) && |rest| % 4 != 1 && u == g + rest
    requires GroupBytes(g) == x && DecodeGroups(rest) == y && b == x + y
    ensures AllStd(u) && |u| % 4 != 1 && DecodeGroups(u) == b
  {
    DecodeGroupsCons(g, rest);
  }

  /** A group of four characters decodes to the three bytes it encodes. */
  lemma QuadGroupBytes(b0: byte, b1: byte, b2: byte)
    ensures GroupBytes(Quad(b0, b1, b2)) == [b0, b1, b2]
  {
    QuadDecodes(b0, b1, b2);
  }


  lemma ToStdToUrl(s: string)
    requires AllStd(s)
    ensures ToStd(ToUrl(s)) == s
  {
  }

  /** The padding `b64urlDecode` restores is exactly what `atob` drops again. */
  lemma StripFinalPadRestored(u: string)
    requires AllStd(u) && |u| % 4 != 1
    ensures StripFinalPad(u + PadFor(|u|)) == u
  {
    var d := u + PadFor(|u|);
    if |u| % 4 == 2 {
      assert d[|d| - 2..] == "==";
      assert d[..|d| - 2] == u;
    } else if |u| % 4 == 3 {
      assert d[|d| - 2] == u[|u| - 1];
      assert IsStdChar(u[|u| - 1]);
      assert d[|d| - 2..] != "==";
      assert d[..|d| - 1] == u;
    } else {
      assert d == u;
      assert |d| > 0 ==> d[|d| - 1] == u[|u| - 1] && IsStdChar(u[|u| - 1]);
    }
  }

  /** `atob` on the unpadded encoding with the padding `b64urlDecode`
      restores gives back the bytes. */
  lemma AtobRestored(b: seq<byte>)
    ensures Atob(Unpadded(b) + PadFor(|Unpadded(b)|)) == Some(FromBytes(b))
  {
    var u := Unpadded(b);
    var d := u + PadFor(|u|);
    DecodeGroupsUnpadded(b);
    NoWhitespaceUnchanged(d);
    StripFinalPadRestored(u);
  }

  lemma {:induction false} NoWhitespaceUnchanged(s: string)
    requires forall i :: 0 <= i < |s| ==> !IsAsciiWhitespace(s[i])
    ensures RemoveWhitespace(s) == s
    decreases |s|
  {
    if |s| > 0 {
      NoWhitespaceUnchanged(s[1..]);
      assert s == [s[0]] + s[1..];
    }
  }

  /** base64url round trip: `b64urlDecode(b64urlEncode(b)) == b` for every
      byte sequence. */
  lemma RoundTrip(b: seq<byte>)
    ensures Decode(Encode(b)) == Some(b)
  {
    var u := Unpadded(b);
    EncodeIsUnpadded(b);
    ToStdToUrl(u);
    AtobRestored(b);
    ToBytesFromBytes(b);
  }

  /** A length of 1 modulo 4 gets no padding, so `atob` throws (when the text
      holds no whitespace for `atob` to drop). */
  lemma DecodeRejectsLengthOneModFour(s: string)
    requires |s| % 4 == 1
    requires forall i :: 0 <= i < |s| ==> !IsAsciiWhitespace(s[i])
    ensures Decode(s) == None
  {
    var t := ToStd(s) + PadFor(|s|);
    assert t == ToStd(s);
    NoWhitespaceUnchanged(t);
    assert StripFinalPad(t) == t;
  }
}
