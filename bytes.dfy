/** Byte-level building blocks shared by the FPNN wire codec and the RTVT
    stream chunker: a byte type, Option/Result, the little-endian u32 layout
    that `struct.pack('<I', n)` produces, and the UTF-8 encoding that
    `str.encode('utf-8')` applies to method names. */
module Bytes {

  type byte = x: int | 0 <= x < 256

  datatype Option<+T> = None | Some(value: T)

  datatype Result<+T, +E> = Ok(value: T) | Err(error: E)

  const TwoTo32: int := 0x1_0000_0000

  /** `struct.pack('<I', n)`: four bytes, least significant first.
      Values outside 0..2^32-1 make struct.pack raise; callers check first. */
  function U32LE(n: int): (r: seq<byte>)
    requires 0 <= n < TwoTo32
    ensures |r| == 4
  {
    [n % 256, (n / 256) % 256, (n / 256 / 256) % 256, n / 256 / 256 / 256]
  }

  /** The `I` field of `struct.unpack('<...I', ...)`: four bytes read least
      significant first. */
  function DecodeU32LE(b: seq<byte>): (n: int)
    requires |b| == 4
    ensures 0 <= n < TwoTo32
  {
    b[0] as int + 256 * (b[1] as int + 256 * (b[2] as int + 256 * b[3] as int))
  }

  /** Unpacking what was packed gives the number back. */
  lemma U32RoundTrip(n: int)
    requires 0 <= n < TwoTo32
    ensures DecodeU32LE(U32LE(n)) == n
  {
    var q1 := n / 256;
    var q2 := q1 / 256;
    var q3 := q2 / 256;
    assert n == n % 256 + 256 * q1;
    assert q1 == q1 % 256 + 256 * q2;
    assert q2 == q2 % 256 + 256 * q3;
  }

  /** Packing what was unpacked gives the same four bytes: the encoding is a
      bijection between 0..2^32-1 and four-byte strings. */
  lemma U32Canonical(b: seq<byte>)
    requires |b| == 4
    ensures U32LE(DecodeU32LE(b)) == b
  {
    var n := DecodeU32LE(b);
    var k1 := b[1] as int + 256 * (b[2] as int + 256 * b[3] as int);
    var k2 := b[2] as int + 256 * b[3] as int;
    DivMod256(b[0], k1);
    DivMod256(b[1], k2);
    DivMod256(b[2], b[3]);
    DivMod256(b[3], 0);
  }

  lemma DivMod256(r: int, k: int)
    requires 0 <= r < 256
    ensures (r + 256 * k) / 256 == k && (r + 256 * k) % 256 == r
  {
  }

  /** Distinct numbers pack to distinct bytes. */
  lemma U32Injective(m: int, n: int)
    requires 0 <= m < TwoTo32 && 0 <= n < TwoTo32
    requires U32LE(m) == U32LE(n)
    ensures m == n
  {
    U32RoundTrip(m);
    U32RoundTrip(n);
  }

  /** UTF-8 encoding of one Unicode scalar value (section 3 of RFC 3629). */
  function Utf8Char(c: char): (r: seq<byte>)
    ensures 1 <= |r| <= 4
    ensures |r| == 1 <==> (c as int) < 0x80
    ensures |r| == 1 ==> r[0] == c as int
    ensures |r| > 1 ==> r[0] >= 0xC0
  {
    var v := c as int;
    if v < 0x80 then [v]
    else if v < 0x800 then [0xC0 + v / 64, 0x80 + v % 64]
    else if v < 0x1_0000 then [0xE0 + v / 4096, 0x80 + (v / 64) % 64, 0x80 + v % 64]
    else [0xF0 + v / 262144, 0x80 + (v / 4096) % 64, 0x80 + (v / 64) % 64, 0x80 + v % 64]
  }

  /** `s.encode('utf-8')`: the characters' encodings, concatenated. */
  function Utf8(s: string): (r: seq<byte>)
    ensures |r| >= |s|
    ensures s == [] <==> r == []
  {
    if s == [] then [] else Utf8Char(s[0]) + Utf8(s[1..])
  }

  predicate IsAscii(s: string)
  {
    forall i :: 0 <= i < |s| ==> (s[i] as int) < 0x80
  }

  /** For ASCII text the encoding is one byte per character, the byte being
      the character's code. */
  lemma {:induction false} Utf8Ascii(s: string)
    requires IsAscii(s)
    ensures |Utf8(s)| == |s|
    ensures forall i :: 0 <= i < |s| ==> Utf8(s)[i] == s[i] as int
  {
    if s != [] {
      assert IsAscii(s[1..]) by {
        forall i | 0 <= i < |s[1..]| ensures (s[1..][i] as int) < 0x80 {
          assert s[1..][i] == s[i + 1];
        }
      }
      Utf8Ascii(s[1..]);
    }
  }

  /** A character outside ASCII makes the encoding strictly longer than the
      character count. */
  lemma {:induction false} Utf8LongerThanText(s: string, i: int)
    requires 0 <= i < |s| && (s[i] as int) >= 0x80
    ensures |Utf8(s)| > |s|
  {
    if i > 0 {
      Utf8LongerThanText(s[1..], i - 1);
    }
  }

  /** Length of a UTF-8 sequence as announced by its lead byte. */
  function Utf8SeqLen(lead: byte): int
  {
    if lead < 0x80 then 1 else if lead < 0xE0 then 2 else if lead < 0xF0 then 3 else 4
  }

  /** The scalar value that a one- to four-byte UTF-8 sequence carries. */
  function Utf8Value(b: seq<byte>): int
    requires 1 <= |b| <= 4
  {
    if |b| == 1 then b[0] as int
    else if |b| == 2 then (b[0] as int - 0xC0) * 64 + (b[1] as int - 0x80)
    else if |b| == 3 then (b[0] as int - 0xE0) * 4096 + (b[1] as int - 0x80) * 64 + (b[2] as int - 0x80)
    else (b[0] as int - 0xF0) * 262144 + (b[1] as int - 0x80) * 4096 + (b[2] as int - 0x80) * 64 + (b[3] as int - 0x80)
  }

  /** A character's encoding announces its own length and decodes back to it. */
  lemma Utf8CharDecodes(c: char)
    ensures Utf8SeqLen(Utf8Char(c)[0]) == |Utf8Char(c)|
    ensures Utf8Value(Utf8Char(c)) == c as int
  {
    var v := c as int;
    if v >= 0x80 {
      assert v == (v / 64) * 64 + v % 64;
      if v >= 0x800 {
        assert v / 64 == (v / 4096) * 64 + (v / 64) % 64;
        if v >= 0x1_0000 {
          assert v / 4096 == (v / 262144) * 64 + (v / 4096) % 64;
        }
      }
    }
  }

  /** Different texts have different encodings: the method name can be
      recovered from its bytes. */
  lemma {:induction false} Utf8Injective(s: string, t: string)
    requires Utf8(s) == Utf8(t)
    ensures s == t
  {
    if s != [] {
      assert t != [];
      var a, b := Utf8Char(s[0]), Utf8Char(t[0]);
      assert Utf8(s) == a + Utf8(s[1..]);
      assert Utf8(t) == b + Utf8(t[1..]);
      assert a[0] == Utf8(s)[0] == b[0];
      Utf8CharDecodes(s[0]);
      Utf8CharDecodes(t[0]);
      assert |a| == |b|;
      assert a == Utf8(s)[..|a|] == b;
      assert Utf8(s[1..]) == Utf8(s)[|a|..] == Utf8(t[1..]);
      Utf8Injective(s[1..], t[1..]);
      assert s == [s[0]] + s[1..];
      assert t == [t[0]] + t[1..];
    }
  }
}
