/**
 * Byte-level encodings the services rely on: UTF-8 (`Buffer.from(string)`),
 * base64 (`buffer.toString('base64')`, standard alphabet with `=` padding)
 * and the 32-bit signed integers that JavaScript's bitwise operators
 * produce (`ToInt32`).
 */
module Encoding {

  type Byte = b: int | 0 <= b < 256

  // ----- 32-bit signed integers -----

  /** ECMAScript `ToInt32` on an integral number: reduction modulo 2^32 into [-2^31, 2^31). */
  function Int32(x: int): (r: int)
    ensures -0x8000_0000 <= r < 0x8000_0000
    ensures (r - x) % 0x1_0000_0000 == 0
  {
    (x + 0x8000_0000) % 0x1_0000_0000 - 0x8000_0000
  }

  /** Values that already lie in the 32-bit range are left alone. */
  lemma Int32Identity(x: int)
    requires -0x8000_0000 <= x < 0x8000_0000
    ensures Int32(x) == x
  {
  }

  /** `Int32` depends only on its argument modulo 2^32. */
  lemma Int32Congruent(x: int, y: int)
    requires (x - y) % 0x1_0000_0000 == 0
    ensures Int32(x) == Int32(y)
  {
    var d := Int32(x) - Int32(y);
    assert d % 0x1_0000_0000 == 0;
  }

  // ----- UTF-8 -----

  /** The UTF-8 encoding of one Unicode scalar value. */
  function Utf8Char(c: char): (r: seq<Byte>)
    ensures 1 <= |r| <= 4
    ensures (c as int < 0x80) <==> |r| == 1
    ensures |r| == 1 ==> r[0] == c as int
  {
    var n := c as int;
    if n < 0x80 then [n]
    else if n < 0x800 then [0xC0 + n / 64, 0x80 + n % 64]
    else if n < 0x1_0000 then [0xE0 + n / 4096, 0x80 + (n / 64) % 64, 0x80 + n % 64]
    else [0xF0 + n / 262144, 0x80 + (n / 4096) % 64, 0x80 + (n / 64) % 64, 0x80 + n % 64]
  }

  /** `Buffer.from(s)`: the UTF-8 encoding of a string of Unicode scalar values. */
  function Utf8(s: string): (r: seq<Byte>)
    ensures |s| <= |r| <= 4 * |s|
  {
    if s == [] then [] else Utf8Char(s[0]) + Utf8(s[1..])
  }

  lemma {:induction false} Utf8Append(s: string, t: string)
    ensures Utf8(s + t) == Utf8(s) + Utf8(t)
  {
    if s == [] {
      assert s + t == t;
    } else {
      var a := Utf8Char(s[0]);
      assert (s + t)[0] == s[0] && (s + t)[1..] == s[1..] + t;
      assert Utf8(s + t) == a + Utf8(s[1..] + t);
      Utf8Append(s[1..], t);
      assert a + (Utf8(s[1..]) + Utf8(t)) == (a + Utf8(s[1..])) + Utf8(t);
    }
  }

  // ----- base64 -----

  /** The base64 alphabet: `A`-`Z`, `a`-`z`, `0`-`9`, `+`, `/`. */
  function Sextet(n: int): (c: char)
    requires 0 <= n < 64
    ensures c != '=' && c != ':'
  {
    if n < 26 then ('A' as int + n) as char
    else if n < 52 then ('a' as int + n - 26) as char
    else if n < 62 then ('0' as int + n - 52) as char
    else if n == 62 then '+'
    else '/'
  }

  /** The four characters for a final group of one or two bytes, padded with `=`. */
  function PaddedGroup(b: seq<Byte>): (r: string)
    requires 1 <= |b| <= 2
    ensures |r| == 4 && r[3] == '='
  {
    if |b| == 1 then [Sextet(b[0] / 4), Sextet((b[0] % 4) * 16), '=', '=']
    else [Sextet(b[0] / 4), Sextet((b[0] % 4) * 16 + b[1] / 16), Sextet((b[1] % 16) * 4), '=']
  }

  /** The four characters for a full group of three bytes. */
  function FullGroup(b0: Byte, b1: Byte, b2: Byte): (r: string)
    ensures |r| == 4 && forall i :: 0 <= i < 4 ==> r[i] != '='
  {
    var n: int := b0 as int * 65536 + b1 as int * 256 + b2 as int;
    [Sextet(n / 262144), Sextet((n / 4096) % 64), Sextet((n / 64) % 64), Sextet(n % 64)]
  }

  /** `Buffer.from(bytes).toString('base64')`. */
  function Base64(b: seq<Byte>): (r: string)
    ensures |r| == 4 * ((|b| + 2) / 3)
    ensures forall i :: 0 <= i < |r| ==> r[i] != ':'
  {
    if |b| == 0 then ""
    else if |b| <= 2 then PaddedGroup(b)
    else FullGroup(b[0], b[1], b[2]) + Base64(b[3..])
  }
}
