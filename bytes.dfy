/** Bytes and "binary strings": the gateway moves between `Uint8Array`s and
    JavaScript strings whose characters are all below 256 (what `btoa` takes
    and `atob` returns). */
module Bytes {

  /** One octet, as stored in a `Uint8Array`. */
  type byte = x: int | 0 <= x < 256

  /** A string every character of which fits in one octet. */
  predicate IsBinary(s: string) {
    forall i :: 0 <= i < |s| ==> s[i] as int < 256
  }

  /** `String.fromCharCode` applied to every byte. */
  function FromBytes(b: seq<byte>): (s: string)
    ensures |s| == |b| && IsBinary(s)
    ensures forall i :: 0 <= i < |b| ==> s[i] as int == b[i]
  {
    seq(|b|, i requires 0 <= i < |b| => b[i] as char)
  }

  /** `charCodeAt` applied to every character of a binary string. */
  function ToBytes(s: string): (b: seq<byte>)
    requires IsBinary(s)
    ensures |b| == |s|
    ensures forall i :: 0 <= i < |s| ==> b[i] == s[i] as int
  {
    seq(|s|, i requires 0 <= i < |s| => s[i] as int)
  }

  lemma ToBytesFromBytes(b: seq<byte>)
    ensures ToBytes(FromBytes(b)) == b
  {
  }

  /** Reading `buf[i]` of a `Uint8Array`: an index past the end yields
      `undefined`, which every bitwise operator and truth test of the
      gateway treats as 0. */
  function At(buf: seq<byte>, i: int): byte {
    if 0 <= i < |buf| then buf[i] else 0
  }
}
