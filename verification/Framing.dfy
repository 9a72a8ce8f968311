/**
 * The byte stream that feeds a source digest: for each file its path and its
 * content, each behind an eight-byte big-endian length, then two bytes of
 * executable bits. The stream can be read back, so equal streams mean equal
 * file lists.
 */
module Framing {
  import opened Ordering
  import opened Utf8
  import opened Results

  type Bytes = seq<Byte>

  /** The part of a file that the digest covers; `exec` is its mode masked with 0o111. */
  datatype Material = Material(path: Bytes, content: Bytes, exec: nat)

  /** Lengths from here on make `to_bytes(8, "big")` overflow. */
  const LENGTH_LIMIT: nat := 0x1_0000_0000_0000_0000

  /** `mode & 0o111`. */
  function ExecBits(mode: nat): (r: nat)
    ensures r <= 73
  {
    mode / 64 % 2 * 64 + mode / 8 % 2 * 8 + mode % 2
  }

  function Pow256(k: nat): nat {
    if k == 0 then 1 else 256 * Pow256(k - 1)
  }

  /** `n.to_bytes(k, "big")`. */
  function BigEndian(n: nat, k: nat): (b: Bytes)
    requires n < Pow256(k)
    ensures |b| == k
  {
    if k == 0 then [] else BigEndian(n / 256, k - 1) + [n % 256]
  }

  function Value(b: Bytes): nat {
    if b == [] then 0 else 256 * Value(b[..|b| - 1]) + b[|b| - 1]
  }

  lemma {:induction false} ValueOfBigEndian(n: nat, k: nat)
    requires n < Pow256(k)
    ensures Value(BigEndian(n, k)) == n
  {
    if k > 0 {
      ValueOfBigEndian(n / 256, k - 1);
      var front := BigEndian(n / 256, k - 1);
      assert (front + [n % 256])[..k - 1] == front;
    }
  }

  lemma Widths()
    ensures Pow256(8) == LENGTH_LIMIT && Pow256(2) == 65536
  {
    assert Pow256(2) == 256 * 256;
    assert Pow256(4) == 65536 * 65536;
    assert Pow256(6) == 65536 * Pow256(4);
    assert Pow256(8) == 65536 * Pow256(6);
  }

  function Width8(n: nat): (b: Bytes)
    requires n < LENGTH_LIMIT
    ensures |b| == 8 && Value(b) == n
  {
    Widths();
    ValueOfBigEndian(n, 8);
    BigEndian(n, 8)
  }

  function Width2(n: nat): (b: Bytes)
    requires n < 65536
    ensures |b| == 2 && Value(b) == n
  {
    Widths();
    ValueOfBigEndian(n, 2);
    BigEndian(n, 2)
  }

  predicate Encodable(m: Material) {
    |m.path| < LENGTH_LIMIT && |m.content| < LENGTH_LIMIT && m.exec < 65536
  }

  predicate AllEncodable(ms: seq<Material>) {
    forall i :: 0 <= i < |ms| ==> Encodable(ms[i])
  }

  function Framed(b: Bytes): Bytes
    requires |b| < LENGTH_LIMIT
  {
    Width8(|b|) + b
  }

  /** The three digest updates for one file. */
  function Chunk(m: Material): Bytes
    requires Encodable(m)
  {
    Framed(m.path) + Framed(m.content) + Width2(m.exec)
  }

  /** Everything fed to the digest, in order. */
  function Stream(ms: seq<Material>): Bytes
    requires AllEncodable(ms)
  {
    if ms == [] then [] else Stream(ms[..|ms| - 1]) + Chunk(ms[|ms| - 1])
  }

  lemma StreamAppend(ms: seq<Material>, m: Material)
    requires AllEncodable(ms) && Encodable(m)
    ensures AllEncodable(ms + [m]) && Stream(ms + [m]) == Stream(ms) + Chunk(m)
  {
    assert (ms + [m])[..|ms|] == ms;
  }

  // ----- Reading a stream back ----------------------------------------------

  /** Splits a framed block off the front. */
  function ReadFramed(b: Bytes): (r: Option<(Bytes, Bytes)>)
    ensures r.Some? ==> |r.value.1| < |b|
  {
    if |b| < 8 then None
    else
      var n := Value(b[..8]);
      if |b| < 8 + n then None else Some((b[8..8 + n], b[8 + n..]))
  }

  function ReadChunk(b: Bytes): (r: Option<(Material, Bytes)>)
    ensures r.Some? ==> |r.value.1| < |b|
  {
    match ReadFramed(b)
    case None => None
    case Some((path, b1)) =>
      match ReadFramed(b1)
      case None => None
      case Some((content, b2)) =>
        if |b2| < 2 then None else Some((Material(path, content, Value(b2[..2])), b2[2..]))
  }

  function ReadStream(b: Bytes): Option<seq<Material>> {
    if b == [] then Some([])
    else match ReadChunk(b)
         case None => None
         case Some((m, rest)) =>
           match ReadStream(rest)
           case None => None
           case Some(ms) => Some([m] + ms)
  }

  lemma ReadFramedBack(b: Bytes, tail: Bytes)
    requires |b| < LENGTH_LIMIT
    ensures ReadFramed(Framed(b) + tail) == Some((b, tail))
  {
    var all := Framed(b) + tail;
    assert all[..8] == Width8(|b|);
    assert all[8..8 + |b|] == b;
    assert all[8 + |b|..] == tail;
  }

  lemma ReadChunkBack(m: Material, tail: Bytes)
    requires Encodable(m)
    ensures ReadChunk(Chunk(m) + tail) == Some((m, tail))
  {
    var end := Width2(m.exec) + tail;
    assert Chunk(m) + tail == Framed(m.path) + (Framed(m.content) + end);
    ReadFramedBack(m.path, Framed(m.content) + end);
    ReadFramedBack(m.content, end);
    assert end[..2] == Width2(m.exec) && end[2..] == tail;
  }

  lemma {:induction false} StreamFront(ms: seq<Material>)
    requires ms != [] && AllEncodable(ms)
    ensures Stream(ms) == Chunk(ms[0]) + Stream(ms[1..])
  {
    if |ms| == 1 {
      assert ms[..0] == [] && ms[1..] == [];
    } else {
      var n := |ms| - 1;
      StreamFront(ms[..n]);
      var middle, rest := ms[..n][1..], ms[1..];
      assert middle == rest[..n - 1] && rest[n - 1] == ms[n];
      Associative(Chunk(ms[0]), Stream(middle), Chunk(ms[n]));
    }
  }

  /** Any list of files can be recovered from its digest input. */
  lemma {:induction false} ReadStreamBack(ms: seq<Material>)
    requires AllEncodable(ms)
    ensures ReadStream(Stream(ms)) == Some(ms)
  {
    if ms != [] {
      StreamFront(ms);
      ReadChunkBack(ms[0], Stream(ms[1..]));
      ReadStreamBack(ms[1..]);
      assert ms == [ms[0]] + ms[1..];
    }
  }

  /** Two file lists give the same digest input exactly when they are equal. */
  lemma StreamInjective(a: seq<Material>, b: seq<Material>)
    requires AllEncodable(a) && AllEncodable(b)
    ensures Stream(a) == Stream(b) <==> a == b
  {
    ReadStreamBack(a);
    ReadStreamBack(b);
  }
}
