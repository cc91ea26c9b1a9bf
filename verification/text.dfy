/** Character- and byte-level helpers shared by the client and server models. */
module Text {
  import opened Wrappers

  /** An octet, as stored in a JavaScript byte buffer or a Python `bytes` object. */
  type byte = x: int | 0 <= x < 256

  predicate IsAscii(s: string) {
    forall i :: 0 <= i < |s| ==> s[i] as int < 0x80
  }

  predicate StartsWith(s: string, prefix: string) {
    |prefix| <= |s| && s[..|prefix|] == prefix
  }

  /** JavaScript's `s.slice(0, n)` for a non-negative `n`: the first `n` characters, or all of `s`. */
  function Take(s: string, n: nat): (r: string)
    ensures |r| == if |s| < n then |s| else n
    ensures StartsWith(s, r)
  {
    if |s| <= n then s else s[..n]
  }

  /** Decimal rendering of a non-negative integer, as JavaScript's template literals print a status code. */
  function Decimal(n: nat): (r: string)
    ensures |r| > 0
    ensures forall i :: 0 <= i < |r| ==> '0' <= r[i] <= '9'
  {
    if n < 10 then [DigitChar(n)] else Decimal(n / 10) + [DigitChar(n % 10)]
  }

  function DigitChar(d: nat): (c: char)
    requires d < 10
    ensures '0' <= c <= '9' && c as int - '0' as int == d
  {
    ('0' as int + d) as char
  }

  /** The characters Python's `str.isspace` accepts, which `str.strip()` removes. */
  predicate IsPySpace(c: char) {
    || (0x09 <= c as int <= 0x0D) || (0x1C <= c as int <= 0x20)
    || c as int == 0x85 || c as int == 0xA0 || c as int == 0x1680
    || (0x2000 <= c as int <= 0x200A) || c as int == 0x2028 || c as int == 0x2029
    || c as int == 0x202F || c as int == 0x205F || c as int == 0x3000
  }

  /** Python's `s.strip()` with no argument. */
  function PyStrip(s: string): (r: string)
    ensures (forall i :: 0 <= i < |s| ==> !IsPySpace(s[i])) ==> r == s
  {
    PyStripRight(PyStripLeft(s))
  }

  function PyStripLeft(s: string): string {
    if s == [] || !IsPySpace(s[0]) then s else PyStripLeft(s[1..])
  }

  function PyStripRight(s: string): string {
    if s == [] || !IsPySpace(s[|s| - 1]) then s else PyStripRight(s[..|s| - 1])
  }

  /** Stripping removes white space at both ends only: the result is a slice of the input with no
    * white space at either end, and everything cut off is white space. */
  lemma {:induction false} PyStripTrims(s: string)
    ensures exists lo, hi :: 0 <= lo <= hi <= |s| && PyStrip(s) == s[lo..hi]
              && (forall i :: 0 <= i < lo || hi <= i < |s| ==> IsPySpace(s[i]))
    ensures PyStrip(s) != [] ==> !IsPySpace(PyStrip(s)[0]) && !IsPySpace(PyStrip(s)[|PyStrip(s)| - 1])
  {
    var lo := StripLeftCount(s);
    var l := PyStripLeft(s);
    var hi := lo + |PyStripRight(l)|;
    StripRightIsPrefix(l);
    assert PyStrip(s) == s[lo..hi];
  }

  lemma {:induction false} StripLeftCount(s: string) returns (lo: nat)
    ensures lo <= |s| && PyStripLeft(s) == s[lo..]
    ensures forall i :: 0 <= i < lo ==> IsPySpace(s[i])
    ensures PyStripLeft(s) != [] ==> !IsPySpace(PyStripLeft(s)[0])
    decreases |s|
  {
    if s == [] || !IsPySpace(s[0]) {
      lo := 0;
    } else {
      var k := StripLeftCount(s[1..]);
      lo := k + 1;
      assert s[1..][k..] == s[lo..];
    }
  }

  lemma {:induction false} StripRightIsPrefix(s: string)
    ensures |PyStripRight(s)| <= |s| && PyStripRight(s) == s[..|PyStripRight(s)|]
    ensures forall i :: |PyStripRight(s)| <= i < |s| ==> IsPySpace(s[i])
    ensures PyStripRight(s) != [] ==> !IsPySpace(PyStripRight(s)[|PyStripRight(s)| - 1])
    decreases |s|
  {
    if s != [] && IsPySpace(s[|s| - 1]) {
      StripRightIsPrefix(s[..|s| - 1]);
    }
  }

  /** The position of the first occurrence of `c`. */
  function IndexOf(s: string, c: char, from: nat): (r: Option<nat>)
    requires from <= |s|
    ensures r.Some? ==> from <= r.value < |s| && s[r.value] == c
    ensures forall j :: from <= j < |s| && (r.None? || j < r.value) ==> s[j] != c
    decreases |s| - from
  {
    if from == |s| then None
    else if s[from] == c then Some(from)
    else IndexOf(s, c, from + 1)
  }
}
