/**
 * Text-to-octet encodings met on the wire: UTF-8 (Node's `Buffer.from(s, 'utf-8')`,
 * `encodeURIComponent`, and Python's strict `bytes.decode('utf-8')`), and the
 * Latin-1 octets that `btoa` and the `base-64` package's `encode` take from a string.
 * Characters are Unicode scalar values.
 */
module Utf8 {
  import opened Wrappers
  import opened Text

  predicate IsContinuation(x: byte) { 0x80 <= x < 0xC0 }

  /** The UTF-8 octets of one scalar value (section 3 of RFC 3629). */
  function EncodeChar(c: char): (b: seq<byte>)
    ensures 1 <= |b| <= 4
    ensures (c as int < 0x80) <==> |b| == 1
    ensures |b| == 1 ==> b[0] == c as int
  {
    var cp := c as int;
    if cp < 0x80 then [cp]
    else if cp < 0x800 then [0xC0 + cp / 64, 0x80 + cp % 64]
    else if cp < 0x10000 then [0xE0 + cp / 4096, 0x80 + (cp / 64) % 64, 0x80 + cp % 64]
    else [0xF0 + cp / 262144, 0x80 + (cp / 4096) % 64, 0x80 + (cp / 64) % 64, 0x80 + cp % 64]
  }

  function Encode(s: string): (b: seq<byte>)
    ensures |b| >= |s|
  {
    if s == [] then [] else EncodeChar(s[0]) + Encode(s[1..])
  }

  /** The first character of a well-formed UTF-8 octet sequence and its length in octets, or None
    * where Python's strict decoder raises (Table 3-7 of the Unicode Standard: no overlong forms,
    * no surrogates, nothing above U+10FFFF). */
  function DecodeFirst(b: seq<byte>): (r: Option<(char, nat)>)
    requires |b| > 0
    ensures r.Some? ==> 1 <= r.value.1 <= |b| && r.value.1 <= 4
  {
    var b0: int := b[0];
    if b0 < 0x80 then Some((b0 as char, 1))
    else if 0xC2 <= b0 < 0xE0 then
      if |b| >= 2 && IsContinuation(b[1]) then Some((((b0 - 0xC0) * 64 + (b[1] as int - 0x80)) as char, 2))
      else None
    else if 0xE0 <= b0 < 0xF0 then
      var lo := if b0 == 0xE0 then 0xA0 else 0x80;
      var hi := if b0 == 0xED then 0xA0 else 0xC0;
      if |b| >= 3 && lo <= b[1] < hi && IsContinuation(b[2]) then
        Some((((b0 - 0xE0) * 4096 + (b[1] as int - 0x80) * 64 + (b[2] as int - 0x80)) as char, 3))
      else None
    else if 0xF0 <= b0 < 0xF5 then
      var lo := if b0 == 0xF0 then 0x90 else 0x80;
      var hi := if b0 == 0xF4 then 0x90 else 0xC0;
      if |b| >= 4 && lo <= b[1] < hi && IsContinuation(b[2]) && IsContinuation(b[3]) then
        Some((((b0 - 0xF0) * 262144 + (b[1] as int - 0x80) * 4096 + (b[2] as int - 0x80) * 64 + (b[3] as int - 0x80)) as char, 4))
      else None
    else None
  }

  /** Python's `bytes.decode('utf-8')` with the default strict error handler. */
  function Decode(b: seq<byte>): Option<string>
    decreases |b|
  {
    if b == [] then Some("")
    else match DecodeFirst(b)
      case None => None
      case Some((c, n)) =>
        match Decode(b[n..])
        case None => None
        case Some(rest) => Some([c] + rest)
  }

  /** The octets `btoa` takes from a string: one per character, refused (an exception) as soon as a
    * character lies outside Latin-1. */
  function Latin1(s: string): (r: Option<seq<byte>>)
    ensures r.Some? <==> forall i :: 0 <= i < |s| ==> s[i] as int < 0x100
    ensures r.Some? ==> |r.value| == |s| && forall i :: 0 <= i < |s| ==> r.value[i] == s[i] as int
  {
    if s == [] then Some([])
    else if s[0] as int >= 0x100 then None
    else match Latin1(s[1..])
      case None => None
      case Some(rest) => Some([s[0] as int] + rest)
  }

  lemma Split64(q: nat, r: nat)
    requires r < 64
    ensures (q * 64 + r) / 64 == q && (q * 64 + r) % 64 == r
  {
  }

  /** The octets of one character decode back to it, whatever follows. */
  lemma DecodeFirstEncodeChar(c: char, rest: seq<byte>)
    ensures DecodeFirst(EncodeChar(c) + rest) == Some((c, |EncodeChar(c)|))
  {
    var cp := c as int;
    var b := EncodeChar(c) + rest;
    if cp < 0x80 {
    } else if cp < 0x800 {
      assert b[0] == 0xC0 + cp / 64 && b[1] == 0x80 + cp % 64;
    } else if cp < 0x10000 {
      ThreeOctets(cp);
      assert b[0] == 0xE0 + cp / 4096 && b[1] == 0x80 + (cp / 64) % 64 && b[2] == 0x80 + cp % 64;
    } else {
      FourOctets(cp);
      assert b[0] == 0xF0 + cp / 262144 && b[1] == 0x80 + (cp / 4096) % 64;
      assert b[2] == 0x80 + (cp / 64) % 64 && b[3] == 0x80 + cp % 64;
    }
  }

  lemma ThreeOctets(cp: nat)
    requires 0x800 <= cp < 0x10000 && (cp < 0xD800 || 0xE000 <= cp)
    ensures (cp / 4096) * 4096 + ((cp / 64) % 64) * 64 + cp % 64 == cp
    ensures cp / 4096 == 0 ==> (cp / 64) % 64 >= 0x20
    ensures cp / 4096 == 0xD ==> (cp / 64) % 64 < 0x20
  {
    var q, r := cp / 4096, cp % 4096;
    Split64(q, (cp / 64) % 64);
    assert cp / 64 == q * 64 + r / 64;
  }

  lemma FourOctets(cp: nat)
    requires 0x10000 <= cp < 0x110000
    ensures (cp / 262144) * 262144 + ((cp / 4096) % 64) * 4096 + ((cp / 64) % 64) * 64 + cp % 64 == cp
    ensures cp / 262144 == 0 ==> (cp / 4096) % 64 >= 0x10
    ensures cp / 262144 == 4 ==> (cp / 4096) % 64 < 0x10
  {
    assert cp / 4096 == (cp / 262144) * 64 + (cp / 4096) % 64;
    assert cp / 64 == (cp / 4096) * 64 + (cp / 64) % 64;
  }

  /** Round trip: strict decoding recovers every string from its UTF-8 octets. */
  lemma {:induction false} DecodeEncode(s: string)
    ensures Decode(Encode(s)) == Some(s)
  {
    if s != [] {
      var e, tail := EncodeChar(s[0]), Encode(s[1..]);
      DecodeFirstEncodeChar(s[0], tail);
      assert (e + tail)[|e|..] == tail;
      DecodeEncode(s[1..]);
      assert [s[0]] + s[1..] == s;
    }
  }

  /** On ASCII text the two encodings produce the same octets. */
  lemma {:induction false} AsciiLatin1IsUtf8(s: string)
    requires IsAscii(s)
    ensures Latin1(s) == Some(Encode(s))
  {
    if s != [] {
      AsciiLatin1IsUtf8(s[1..]);
    }
  }
}
