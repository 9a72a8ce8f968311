/**
 * UTF-8 as section 3 of RFC 3629 defines it, and the lenient decoder that drops
 * what it cannot read. A Dafny `char` is a Unicode scalar value, so `Encode` is
 * total, as `str.encode` is on text without surrogates.
 */
module Utf8 {

  type Byte = x: int | 0 <= x < 256

  function EncodeChar(c: char): (b: seq<Byte>)
    ensures 1 <= |b| <= 4
  {
    var n := c as int;
    if n < 0x80 then [n]
    else if n < 0x800 then [0xC0 + n / 64, 0x80 + n % 64]
    else if n < 0x10000 then [0xE0 + n / 4096, 0x80 + n / 64 % 64, 0x80 + n % 64]
    else [0xF0 + n / 262144, 0x80 + n / 4096 % 64, 0x80 + n / 64 % 64, 0x80 + n % 64]
  }

  function Encode(s: string): seq<Byte> {
    if s == "" then [] else EncodeChar(s[0]) + Encode(s[1..])
  }

  // ----- Decoding -----------------------------------------------------------

  /** What the decoder finds at the front: a character, or a run of bytes it must give up on. */
  datatype Scan = Good(c: char, size: nat) | Bad(size: nat)

  predicate Continuation(b: Byte) {
    0x80 <= b < 0xC0
  }

  /** Bytes allowed after a lead byte: no overlong forms, no surrogates, nothing above U+10FFFF. */
  predicate SecondByte(lead: Byte, b: Byte) {
    && Continuation(b)
    && (lead == 0xE0 ==> 0xA0 <= b)
    && (lead == 0xED ==> b < 0xA0)
    && (lead == 0xF0 ==> 0x90 <= b)
    && (lead == 0xF4 ==> b < 0x90)
  }

  function Need(lead: Byte): nat {
    if lead < 0x80 then 1
    else if 0xC2 <= lead < 0xE0 then 2
    else if 0xE0 <= lead < 0xF0 then 3
    else if 0xF0 <= lead < 0xF5 then 4
    else 0
  }

  /** Length of the longest prefix that could still begin a character: the unit an error skips. */
  function Readable(b: seq<Byte>): (n: nat)
    requires b != []
    ensures 1 <= n <= |b|
  {
    var need := Need(b[0]);
    if need <= 1 || |b| == 1 || !SecondByte(b[0], b[1]) then 1
    else if need == 2 || |b| == 2 || !Continuation(b[2]) then 2
    else if need == 3 || |b| == 3 || !Continuation(b[3]) then 3
    else 4
  }

  function CodePoint(b: seq<int>): int
    requires 1 <= |b| <= 4
  {
    match |b|
    case 1 => b[0]
    case 2 => (b[0] - 0xC0) * 64 + (b[1] - 0x80)
    case 3 => (b[0] - 0xE0) * 4096 + (b[1] - 0x80) * 64 + (b[2] - 0x80)
    case _ => (b[0] - 0xF0) * 262144 + (b[1] - 0x80) * 4096 + (b[2] - 0x80) * 64 + (b[3] - 0x80)
  }

  predicate IsScalar(n: int) {
    0 <= n < 0xD800 || 0xE000 <= n < 0x110000
  }

  lemma ReadableIsScalar(b: seq<Byte>)
    requires b != [] && Readable(b) == Need(b[0])
    ensures IsScalar(CodePoint(b[..Readable(b)]))
  {
  }

  function Next(b: seq<Byte>): (r: Scan)
    requires b != []
    ensures 1 <= r.size <= |b|
  {
    var n := Readable(b);
    if n == Need(b[0]) then
      ReadableIsScalar(b);
      Good(CodePoint(b[..n]) as char, n)
    else Bad(n)
  }

  /** `bytes.decode("utf-8", errors="ignore")`. */
  function DecodeIgnoring(b: seq<Byte>): string {
    if b == [] then ""
    else match Next(b)
         case Good(c, n) => [c] + DecodeIgnoring(b[n..])
         case Bad(n) => DecodeIgnoring(b[n..])
  }

  // ----- One character ------------------------------------------------------

  lemma LeadByte(c: char)
    ensures Need(EncodeChar(c)[0]) == |EncodeChar(c)|
    ensures |EncodeChar(c)| > 1 ==> SecondByte(EncodeChar(c)[0], EncodeChar(c)[1])
    ensures forall i :: 1 <= i < |EncodeChar(c)| ==> Continuation(EncodeChar(c)[i])
  {
  }

  lemma CodePointEncoded(c: char)
    ensures CodePoint(EncodeChar(c)) == c as int
  {
    var n := c as int;
    assert n / 64 / 64 == n / 4096;
    assert n / 4096 / 64 == n / 262144;
  }

  lemma NextWhole(c: char, tail: seq<Byte>)
    ensures Next(EncodeChar(c) + tail) == Good(c, |EncodeChar(c)|)
  {
    var e := EncodeChar(c);
    var b := e + tail;
    LeadByte(c);
    assert forall i :: 0 <= i < |e| ==> b[i] == e[i];
    assert b[..|e|] == e;
    CodePointEncoded(c);
  }

  /** A character cut short is skipped as a whole: none of its bytes starts another one. */
  lemma NextCut(c: char, m: nat)
    requires 0 < m < |EncodeChar(c)|
    ensures Next(EncodeChar(c)[..m]) == Bad(m)
  {
    LeadByte(c);
  }
}
