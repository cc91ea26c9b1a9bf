/**
 * Base 64 as used in the HTTP Basic credential: the client encodes with the
 * standard alphabet and `=` padding of section 4 of RFC 4648, and the server
 * decodes with Python's `base64.b64decode` in its default, non-validating mode
 * (CPython's `binascii.a2b_base64` with `strict_mode=False`), which skips
 * characters outside the alphabet and stops at a completed padding sequence.
 */
module Base64 {
  import opened Wrappers
  import opened Text

  type sextet = x: int | 0 <= x < 64

  predicate IsBase64Char(c: char) {
    ('A' <= c <= 'Z') || ('a' <= c <= 'z') || ('0' <= c <= '9') || c == '+' || c == '/'
  }

  /** The character for a 6-bit value in the alphabet of Table 1 of RFC 4648. */
  function CharOf(v: sextet): (c: char)
    ensures IsBase64Char(c) && ValueOf(c) == v
  {
    if v < 26 then ('A' as int + v) as char
    else if v < 52 then ('a' as int + (v - 26)) as char
    else if v < 62 then ('0' as int + (v - 52)) as char
    else if v == 62 then '+'
    else '/'
  }

  /** The 6-bit value of an alphabet character (the inverse of CharOf). */
  function ValueOf(c: char): (v: sextet)
    requires IsBase64Char(c)
  {
    if 'A' <= c <= 'Z' then c as int - 'A' as int
    else if 'a' <= c <= 'z' then c as int - 'a' as int + 26
    else if '0' <= c <= '9' then c as int - '0' as int + 52
    else if c == '+' then 62
    else 63
  }

  lemma CharOfValueOf(c: char)
    requires IsBase64Char(c)
    ensures CharOf(ValueOf(c)) == c
  {
  }

  /** Encoding of section 4 of RFC 4648: each group of three octets becomes four characters; a final
    * group of one or two octets is padded with `==` or `=`. */
  function Encode(b: seq<byte>): (s: string)
    ensures |s| == 4 * ((|b| + 2) / 3)
    ensures IsAscii(s)
    ensures forall i :: 0 <= i < |s| ==> IsBase64Char(s[i]) || s[i] == '='
    decreases |b|
  {
    if |b| == 0 then ""
    else if |b| == 1 then [CharOf(b[0] / 4), CharOf((b[0] % 4) * 16), '=', '=']
    else if |b| == 2 then [CharOf(b[0] / 4), CharOf((b[0] % 4) * 16 + b[1] / 16), CharOf((b[1] % 16) * 4), '=']
    else Group(b[0], b[1], b[2]) + Encode(b[3..])
  }

  /** The four characters for three octets: their 24 bits read as four 6-bit values, high bits first. */
  function Group(b0: byte, b1: byte, b2: byte): (s: string)
    ensures |s| == 4 && IsAscii(s)
    ensures forall i :: 0 <= i < 4 ==> IsBase64Char(s[i])
  {
    [CharOf(b0 / 4), CharOf((b0 % 4) * 16 + b1 / 16), CharOf((b1 % 16) * 4 + b2 / 64), CharOf(b2 % 64)]
  }

  /** The decoder's registers: position inside the current quad, the bits left over from the last
    * character, the count of `=` seen in the current padding run, and the octets produced so far. */
  datatype DecoderState = DecoderState(quadPos: nat, leftChar: nat, pads: nat, out: seq<byte>)

  const Start := DecoderState(0, 0, 0, [])

  /** One data character entering the quad; each completed octet is stored into an unsigned char. */
  function Feed(st: DecoderState, v: sextet): DecoderState {
    match st.quadPos
    case 0 => DecoderState(1, v, 0, st.out)
    case 1 => DecoderState(2, v % 16, 0, st.out + [(st.leftChar * 4 + v / 16) % 256])
    case 2 => DecoderState(3, v % 4, 0, st.out + [(st.leftChar * 16 + v / 4) % 256])
    case _ => DecoderState(0, 0, 0, st.out + [(st.leftChar * 64 + v) % 256])
  }

  /** The non-validating scan: a `=` counts toward padding only from the third character of a quad
    * on, and a run that completes the quad ends decoding; other non-alphabet characters are
    * skipped. Input ending inside a quad is an error ("Incorrect padding"). */
  function Scan(s: string, st: DecoderState): (r: Option<seq<byte>>)
    decreases |s|
  {
    if s == [] then
      if st.quadPos == 0 then Some(st.out) else None
    else if s[0] == '=' then
      if st.quadPos >= 2 then
        if st.quadPos + st.pads + 1 >= 4 then Some(st.out)
        else Scan(s[1..], st.(pads := st.pads + 1))
      else Scan(s[1..], st)
    else if IsBase64Char(s[0]) then Scan(s[1..], Feed(st, ValueOf(s[0])))
    else Scan(s[1..], st)
  }

  /** Python's `base64.b64decode(s)` on a `str`: non-ASCII text is refused before decoding. */
  function PyDecode(s: string): Option<seq<byte>> {
    if IsAscii(s) then Scan(s, Start) else None
  }

  lemma Split16(q: nat, r: nat)
    requires r < 16
    ensures (q * 16 + r) / 16 == q && (q * 16 + r) % 16 == r
  {
  }

  lemma Split4(q: nat, r: nat)
    requires r < 4
    ensures (q * 4 + r) / 4 == q && (q * 4 + r) % 4 == r
  {
  }

  /** Feeding the four characters of a full group appends its three octets and closes the quad. */
  lemma FeedGroup(acc: seq<byte>, b0: byte, b1: byte, b2: byte)
    ensures Feed(Feed(Feed(Feed(DecoderState(0, 0, 0, acc), b0 / 4), (b0 % 4) * 16 + b1 / 16),
                 (b1 % 16) * 4 + b2 / 64), b2 % 64)
            == DecoderState(0, 0, 0, acc + [b0, b1, b2])
  {
    FeedFirstTwo(acc, b0, b1);
    var st2 := Feed(Feed(DecoderState(0, 0, 0, acc), b0 / 4), (b0 % 4) * 16 + b1 / 16);
    Split4(b1 % 16, b2 / 64);
    var st3 := Feed(st2, (b1 % 16) * 4 + b2 / 64);
    assert st3 == DecoderState(3, b2 / 64, 0, acc + [b0, b1]);
  }

  /** The first two characters of a group yield its first octet and keep the high nibble of the second. */
  lemma FeedFirstTwo(acc: seq<byte>, b0: byte, b1: byte)
    ensures Feed(Feed(DecoderState(0, 0, 0, acc), b0 / 4), (b0 % 4) * 16 + b1 / 16)
            == DecoderState(2, b1 / 16, 0, acc + [b0])
  {
    Split16(b0 % 4, b1 / 16);
  }

  /** The two characters of a final one-octet group yield that octet. */
  lemma FeedFinalOne(acc: seq<byte>, b0: byte)
    ensures Feed(Feed(DecoderState(0, 0, 0, acc), b0 / 4), (b0 % 4) * 16)
            == DecoderState(2, 0, 0, acc + [b0])
  {
    Split16(b0 % 4, 0);
  }

  /** A final group of one octet, `XY==`, yields that octet and stops at the completed padding. */
  lemma ScanLastOne(b: seq<byte>, acc: seq<byte>)
    requires |b| == 1
    ensures Scan(Encode(b), DecoderState(0, 0, 0, acc)) == Some(acc + b)
  {
    var c0, c1 := CharOf(b[0] / 4), CharOf((b[0] % 4) * 16);
    assert Encode(b) == [c0, c1, '=', '='];
    var st0 := DecoderState(0, 0, 0, acc);
    var st2 := Feed(Feed(st0, b[0] / 4), (b[0] % 4) * 16);
    FeedFinalOne(acc, b[0]);
    assert acc + b == acc + [b[0]];
    assert Scan(['='], st2.(pads := 1)) == Some(acc + b);
    assert Scan(['=', '='], st2) == Some(acc + b);
    assert Scan([c1, '=', '='], Feed(st0, b[0] / 4)) == Some(acc + b);
  }

  /** A final group of two octets, `XYZ=`, yields both and stops at the `=`. */
  lemma ScanLastTwo(b: seq<byte>, acc: seq<byte>)
    requires |b| == 2
    ensures Scan(Encode(b), DecoderState(0, 0, 0, acc)) == Some(acc + b)
  {
    var v0, v1, v2 := b[0] / 4, (b[0] % 4) * 16 + b[1] / 16, (b[1] % 16) * 4;
    var c0, c1, c2 := CharOf(v0), CharOf(v1), CharOf(v2);
    assert Encode(b) == [c0] + ([c1] + ([c2] + ['=']));
    var st0 := DecoderState(0, 0, 0, acc);
    var st1 := Feed(st0, v0);
    var st2 := Feed(st1, v1);
    var st3 := Feed(st2, v2);
    ScanOne(c0, [c1] + ([c2] + ['=']), st0);
    ScanOne(c1, [c2] + ['='], st1);
    ScanOne(c2, ['='], st2);
    FeedFirstTwo(acc, b[0], b[1]);
    FeedThirdOfTwo(acc + [b[0]], b[1]);
    AppendPair(acc, b);
    assert Scan(['='], st3) == Some(acc + b);
  }

  /** The third character of a final two-octet group yields the second octet. */
  lemma FeedThirdOfTwo(acc: seq<byte>, b1: byte)
    ensures Feed(DecoderState(2, b1 / 16, 0, acc), (b1 % 16) * 4) == DecoderState(3, 0, 0, acc + [b1])
  {
    Split4(b1 % 16, 0);
    assert (b1 / 16) * 16 + (b1 % 16) == b1;
  }

  lemma AppendPair(acc: seq<byte>, b: seq<byte>)
    requires |b| == 2
    ensures acc + [b[0]] + [b[1]] == acc + b
  {
  }

  /** A full group is consumed as a whole, leaving the decoder at the start of a quad. */
  lemma ScanGroup(b: seq<byte>, acc: seq<byte>)
    requires |b| >= 3
    ensures Scan(Encode(b), DecoderState(0, 0, 0, acc))
         == Scan(Encode(b[3..]), DecoderState(0, 0, 0, acc + b[..3]))
  {
    EncodeSplit(b);
    ScanGroupChars(b[0], b[1], b[2], Encode(b[3..]), acc);
    FirstThree(b);
  }

  lemma EncodeSplit(b: seq<byte>)
    requires |b| >= 3
    ensures Encode(b) == Group(b[0], b[1], b[2]) + Encode(b[3..])
  {
  }

  lemma FirstThree(b: seq<byte>)
    requires |b| >= 3
    ensures b[..3] == [b[0], b[1], b[2]]
  {
  }

  lemma ScanGroupChars(b0: byte, b1: byte, b2: byte, rest: string, acc: seq<byte>)
    ensures Scan(Group(b0, b1, b2) + rest, DecoderState(0, 0, 0, acc))
         == Scan(rest, DecoderState(0, 0, 0, acc + [b0, b1, b2]))
  {
    var g := Group(b0, b1, b2);
    ScanFour(g[0], g[1], g[2], g[3], rest, DecoderState(0, 0, 0, acc));
    assert [g[0], g[1], g[2], g[3]] == g;
    FeedGroup(acc, b0, b1, b2);
  }

  /** Four alphabet characters in a row are fed to the decoder one after another. */
  lemma ScanFour(c0: char, c1: char, c2: char, c3: char, rest: string, st: DecoderState)
    requires IsBase64Char(c0) && IsBase64Char(c1) && IsBase64Char(c2) && IsBase64Char(c3)
    ensures Scan([c0, c1, c2, c3] + rest, st)
         == Scan(rest, Feed(Feed(Feed(Feed(st, ValueOf(c0)), ValueOf(c1)), ValueOf(c2)), ValueOf(c3)))
  {
    var st1 := Feed(st, ValueOf(c0));
    var st2 := Feed(st1, ValueOf(c1));
    var st3 := Feed(st2, ValueOf(c2));
    ScanOne(c0, [c1, c2, c3] + rest, st);
    assert [c0] + ([c1, c2, c3] + rest) == [c0, c1, c2, c3] + rest;
    ScanOne(c1, [c2, c3] + rest, st1);
    assert [c1] + ([c2, c3] + rest) == [c1, c2, c3] + rest;
    ScanOne(c2, [c3] + rest, st2);
    assert [c2] + ([c3] + rest) == [c2, c3] + rest;
    ScanOne(c3, rest, st3);
  }

  /** A leading alphabet character is fed to the decoder. */
  lemma ScanOne(c: char, rest: string, st: DecoderState)
    requires IsBase64Char(c)
    ensures Scan([c] + rest, st) == Scan(rest, Feed(st, ValueOf(c)))
  {
    assert ([c] + rest)[0] == c && ([c] + rest)[1..] == rest;
  }

  /** Decoding resumes correctly after any prefix of complete quads. */
  lemma {:induction false} ScanEncode(b: seq<byte>, acc: seq<byte>)
    ensures Scan(Encode(b), DecoderState(0, 0, 0, acc)) == Some(acc + b)
    decreases |b|
  {
    if |b| == 0 {
      assert acc + b == acc;
    } else if |b| == 1 {
      ScanLastOne(b, acc);
    } else if |b| == 2 {
      ScanLastTwo(b, acc);
    } else {
      ScanGroup(b, acc);
      ScanEncode(b[3..], acc + b[..3]);
      assert acc + b[..3] + b[3..] == acc + b;
    }
  }

  /** Round trip: the server's decoder recovers exactly the octets the client encoded. */
  lemma DecodeEncode(b: seq<byte>)
    ensures PyDecode(Encode(b)) == Some(b)
  {
    ScanEncode(b, []);
    assert [] + b == b;
  }
}
