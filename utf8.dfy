/** The two foreign character functions the engine calls: decoding one
    UTF-8 code point from the front of a byte slice, and lower-casing. */
module Utf8 {
  import opened Values

  /** The replacement character; also the engine's end-of-input sentinel. */
  const RuneError: int := 0xFFFD
  const MaxRune: int := 0x10FFFF

  predicate IsContinuation(b: byte) { 0x80 <= b <= 0xBF }

  /** Smallest and largest allowed second byte of a multi-byte sequence. */
  function SecondLo(b0: byte): byte
  {
    if b0 == 0xE0 then 0xA0 else if b0 == 0xF0 then 0x90 else 0x80
  }

  function SecondHi(b0: byte): byte
  {
    if b0 == 0xED then 0x9F else if b0 == 0xF4 then 0x8F else 0xBF
  }

  /** A Unicode scalar value: a code point that is not a surrogate. */
  predicate IsScalar(r: int) { 0 <= r <= MaxRune && !(0xD800 <= r <= 0xDFFF) }

  /** Decodes the code point at index `i` of `s` (`utf8.DecodeRune(s[i:])`),
      returning the rune and the number of bytes it takes. No input left gives
      (RuneError, 0); a malformed or truncated sequence gives (RuneError, 1);
      anything else a scalar value and 1 to 4. */
  function DecodeRune(s: seq<byte>, i: nat): (r: (int, nat))
    requires i <= |s|
    ensures r.1 == 0 <==> i == |s|
    ensures i + r.1 <= |s| && r.1 <= 4
    ensures i == |s| ==> r.0 == RuneError
    ensures IsScalar(r.0)
    ensures r.1 == 1 ==> r.0 == RuneError || (r.0 == s[i] < 0x80)
    ensures r.1 > 1 ==> r.0 >= 0x80
  {
    if i == |s| then (RuneError, 0)
    else
      var b0 := s[i] as int;
      var n := |s| - i;
      if b0 < 0x80 then (b0, 1)
      else if 0xC2 <= b0 <= 0xDF then
        if n >= 2 && IsContinuation(s[i + 1])
        then ((b0 - 0xC0) * 64 + (s[i + 1] as int - 0x80), 2)
        else (RuneError, 1)
      else if 0xE0 <= b0 <= 0xEF then
        if n >= 3 && SecondLo(b0 as byte) <= s[i + 1] <= SecondHi(b0 as byte) && IsContinuation(s[i + 2])
        then ((b0 - 0xE0) * 4096 + (s[i + 1] as int - 0x80) * 64 + (s[i + 2] as int - 0x80), 3)
        else (RuneError, 1)
      else if 0xF0 <= b0 <= 0xF4 then
        if n >= 4 && SecondLo(b0 as byte) <= s[i + 1] <= SecondHi(b0 as byte)
           && IsContinuation(s[i + 2]) && IsContinuation(s[i + 3])
        then ((b0 - 0xF0) * 262144 + (s[i + 1] as int - 0x80) * 4096 + (s[i + 2] as int - 0x80) * 64
              + (s[i + 3] as int - 0x80), 4)
        else (RuneError, 1)
      else (RuneError, 1)
  }

  /** The UTF-8 encoding of a scalar value (reference definition for DecodeRune). */
  function EncodeRune(r: int): (b: seq<byte>)
    requires IsScalar(r)
    ensures 1 <= |b| <= 4
  {
    if r < 0x80 then [r]
    else if r < 0x800 then [0xC0 + r / 64, 0x80 + r % 64]
    else if r < 0x10000 then [0xE0 + r / 4096, 0x80 + (r / 64) % 64, 0x80 + r % 64]
    else [0xF0 + r / 262144, 0x80 + (r / 4096) % 64, 0x80 + (r / 64) % 64, 0x80 + r % 64]
  }

  /** Decoding the encoding of a scalar value gives it back, whatever follows. */
  lemma DecodeEncode(r: int, rest: seq<byte>)
    requires IsScalar(r)
    ensures DecodeRune(EncodeRune(r) + rest, 0) == (r, |EncodeRune(r)|)
  {
    if r < 0x80 {
      assert (EncodeRune(r) + rest)[0] == r;
    } else if r < 0x800 {
      DecodeEncode2(r, rest);
    } else if r < 0x10000 {
      DecodeEncode3(r, rest);
    } else {
      DecodeEncode4(r, rest);
    }
  }

  lemma DecodeEncode2(r: int, rest: seq<byte>)
    requires 0x80 <= r < 0x800
    ensures DecodeRune(EncodeRune(r) + rest, 0) == (r, 2)
  {
    var s := EncodeRune(r) + rest;
    assert s[0] == 0xC0 + r / 64 && s[1] == 0x80 + r % 64;
    assert (r / 64) * 64 + r % 64 == r;
  }

  lemma DecodeEncode3(r: int, rest: seq<byte>)
    requires 0x800 <= r < 0x10000 && !(0xD800 <= r <= 0xDFFF)
    ensures DecodeRune(EncodeRune(r) + rest, 0) == (r, 3)
  {
    var s := EncodeRune(r) + rest;
    var q := r / 64;
    assert q * 64 + r % 64 == r;
    assert (q / 64) * 64 + q % 64 == q;
    assert q / 64 == r / 4096;
    assert s[0] == 0xE0 + r / 4096 && s[1] == 0x80 + q % 64 && s[2] == 0x80 + r % 64;
  }

  lemma DecodeEncode4(r: int, rest: seq<byte>)
    requires 0x10000 <= r <= MaxRune
    ensures DecodeRune(EncodeRune(r) + rest, 0) == (r, 4)
  {
    var s := EncodeRune(r) + rest;
    var q := r / 64;
    var q2 := q / 64;
    assert q * 64 + r % 64 == r;
    assert q2 * 64 + q % 64 == q;
    assert (q2 / 64) * 64 + q2 % 64 == q2;
    assert q2 == r / 4096;
    assert q2 / 64 == r / 262144;
    assert s[0] == 0xF0 + r / 262144 && s[1] == 0x80 + q2 % 64;
    assert s[2] == 0x80 + q % 64 && s[3] == 0x80 + r % 64;
  }

  /** Lower-casing as the engine applies it to case-insensitive matches. */
  function ToLower(r: int): (l: int)
    ensures 'A' as int <= r <= 'Z' as int ==> l == r + 32
    ensures !('A' as int <= r <= 'Z' as int) ==> l == r
  {
    if 'A' as int <= r <= 'Z' as int then r + 32 else r
  }
}
