/** The UTF-8 byte encoding that Node's file system calls apply to a JavaScript string
    before it reaches the disk (RFC 3629, section 3). File sizes in the log sink are
    measured in these bytes. */
module Utf8 {
  newtype byte = b: int | 0 <= b < 256

  /** True when the character is a single byte in UTF-8 (U+0000 to U+007F). */
  predicate IsAscii(c: char) {
    c as int < 0x80
  }

  /** The one to four bytes that encode one Unicode scalar value. */
  function EncodeChar(c: char): (r: seq<byte>)
    ensures 1 <= |r| <= 4
    ensures |r| == 1 <==> IsAscii(c)
    ensures |r| == (if c as int < 0x80 then 1 else if c as int < 0x800 then 2
                    else if c as int < 0x10000 then 3 else 4)
    ensures |r| == 1 ==> r[0] as int == c as int
    ensures |r| > 1 ==> r[0] >= 0xC0 && forall k :: 1 <= k < |r| ==> 0x80 <= r[k] < 0xC0
    ensures DecodeChar(r) == c as int
  {
    var n := c as int;
    if n < 0x80 then
      [n as byte]
    else if n < 0x800 then
      DivModLemma(n, 64);
      [(0xC0 + n / 64) as byte, (0x80 + n % 64) as byte]
    else if n < 0x10000 then
      DivDivLemma(n);
      [(0xE0 + n / 4096) as byte, (0x80 + (n / 64) % 64) as byte, (0x80 + n % 64) as byte]
    else
      DivDivLemma(n);
      DivDivDivLemma(n);
      [(0xF0 + n / 262144) as byte, (0x80 + (n / 4096) % 64) as byte,
       (0x80 + (n / 64) % 64) as byte, (0x80 + n % 64) as byte]
  }

  /** The code point that a well-formed one-to-four byte sequence stands for. */
  function DecodeChar(r: seq<byte>): int
    requires 1 <= |r| <= 4
  {
    if |r| == 1 then r[0] as int
    else if |r| == 2 then (r[0] as int - 0xC0) * 64 + (r[1] as int - 0x80)
    else if |r| == 3 then
      ((r[0] as int - 0xE0) * 64 + (r[1] as int - 0x80)) * 64 + (r[2] as int - 0x80)
    else
      (((r[0] as int - 0xF0) * 64 + (r[1] as int - 0x80)) * 64 + (r[2] as int - 0x80)) * 64
        + (r[3] as int - 0x80)
  }

  lemma DivModLemma(n: nat, d: nat)
    requires d > 0
    ensures n == (n / d) * d + n % d
  {
  }

  lemma DivDivLemma(n: nat)
    ensures n / 4096 == (n / 64) / 64
    ensures n == ((n / 4096) * 64 + (n / 64) % 64) * 64 + n % 64
  {
  }

  lemma DivDivDivLemma(n: nat)
    ensures n / 262144 == (n / 4096) / 64
    ensures n == (((n / 262144) * 64 + (n / 4096) % 64) * 64 + (n / 64) % 64) * 64 + n % 64
  {
  }

  /** The UTF-8 encoding of a whole string, character by character. */
  function Encode(s: string): (r: seq<byte>)
    ensures |s| <= |r| <= 4 * |s|
  {
    if s == [] then [] else EncodeChar(s[0]) + Encode(s[1..])
  }

  /** Encoding distributes over concatenation, so appending a string appends its bytes. */
  lemma {:induction false} EncodeAppend(s: string, t: string)
    ensures Encode(s + t) == Encode(s) + Encode(t)
  {
    if s == [] {
      assert s + t == t;
    } else {
      assert (s + t)[0] == s[0];
      assert (s + t)[1..] == s[1..] + t;
      EncodeAppend(s[1..], t);
    }
  }

  /** A string occupies exactly one byte per character precisely when it is all ASCII. */
  lemma {:induction false} EncodeLengthAscii(s: string)
    ensures |Encode(s)| == |s| <==> forall i :: 0 <= i < |s| ==> IsAscii(s[i])
  {
    if s != [] {
      EncodeLengthAscii(s[1..]);
      assert forall i :: 1 <= i < |s| ==> s[i] == s[1..][i - 1];
      if !IsAscii(s[0]) {
        assert |Encode(s)| > |s|;
      }
    }
  }
}
