/**
 * Register value buffers: byte arrays holding a register's bits in
 * little-endian order, and the 64-bit accessors the backend uses on them
 * (buf_set_u64 / buf_get_u64 at bit offset 0).
 *
 * The accessors are modelled at byte granularity: a register of `bits` bits
 * occupies DIV_ROUND_UP(bits, 8) bytes, all of which an access covers.
 */
module BinaryBuffer {

  type Byte = b: int | 0 <= b < 256

  function Min(a: nat, b: nat): nat { if a <= b then a else b }

  /** DIV_ROUND_UP(bits, 8): the number of bytes that hold `bits` bits. */
  function BytesFor(bits: nat): (r: nat)
    ensures 8 * r >= bits && 8 * r < bits + 8
  {
    (bits + 7) / 8
  }

  function Pow256(n: nat): (r: nat)
    ensures r > 0
  {
    if n == 0 then 1 else 256 * Pow256(n - 1)
  }

  /** The 64-bit range: Pow256(8) == 2^64. */
  const U64Limit: nat := 0x1_0000_0000_0000_0000

  lemma Pow256Eight()
    ensures Pow256(8) == U64Limit
  {
  }

  /** The `n` least significant bytes of `v`, least significant first. */
  function LeBytes(v: nat, n: nat): (r: seq<Byte>)
    ensures |r| == n
  {
    if n == 0 then [] else [v % 256] + LeBytes(v / 256, n - 1)
  }

  /** The number a little-endian byte string denotes. */
  function LeValue(b: seq<Byte>): (r: nat)
    ensures r < Pow256(|b|)
  {
    if b == [] then 0 else b[0] + 256 * LeValue(b[1..])
  }

  /** A non-zero multiple of m is at least m away from zero. */
  lemma MultipleAwayFromZero(m: int, t: int)
    requires m > 0
    ensures t >= 1 ==> m * t >= m
    ensures t <= -1 ==> m * t <= -m
  {
  }

  /** Division and remainder are determined by their defining equation. */
  lemma DivModUnique(v: nat, m: nat, k: nat, s: nat)
    requires 0 <= s < m && v == m * k + s
    ensures v / m == k && v % m == s
  {
    var q, r := v / m, v % m;
    MultipleAwayFromZero(m, q - k);
    assert m * (q - k) == s - r;
  }

  /** Taking the low byte off and then the low n-1 bytes of the rest gives the low n bytes. */
  lemma ModSplit(v: nat, p: nat)
    requires p > 0
    ensures v % (256 * p) == v % 256 + 256 * ((v / 256) % p)
  {
    var q := v / 256;
    var s := 256 * (q % p) + v % 256;
    assert v == 256 * q + v % 256;
    assert q == p * (q / p) + q % p;
    assert v == (256 * p) * (q / p) + s by {
      assert 256 * q == 256 * (p * (q / p)) + 256 * (q % p);
      assert 256 * (p * (q / p)) == (256 * p) * (q / p);
    }
    assert s < 256 * p by {
      assert q % p <= p - 1;
      assert 256 * (q % p) <= 256 * (p - 1);
    }
    DivModUnique(v, 256 * p, q / p, s);
  }

  /** Decoding the encoding of v gives v reduced to n bytes. */
  lemma {:induction false} DecodeEncode(v: nat, n: nat)
    ensures LeValue(LeBytes(v, n)) == v % Pow256(n)
  {
    if n > 0 {
      var b := LeBytes(v, n);
      assert b[1..] == LeBytes(v / 256, n - 1);
      DecodeEncode(v / 256, n - 1);
      ModSplit(v, Pow256(n - 1));
    }
  }

  /** Encoding the value of a byte string gives the byte string back. */
  lemma {:induction false} EncodeDecode(b: seq<Byte>)
    ensures LeBytes(LeValue(b), |b|) == b
  {
    if b != [] {
      var x := LeValue(b[1..]);
      DivModUnique(LeValue(b), 256, x, b[0]);
      EncodeDecode(b[1..]);
    }
  }

  /** A byte string denotes zero exactly when all its bytes are zero. */
  lemma {:induction false} ValueZeroIffAllZero(b: seq<Byte>)
    ensures LeValue(b) == 0 <==> forall i :: 0 <= i < |b| ==> b[i] == 0
  {
    if b != [] {
      ValueZeroIffAllZero(b[1..]);
      assert forall i :: 1 <= i < |b| ==> b[i] == b[1..][i - 1];
    }
  }

  /** The encoding of zero is all zero bytes. */
  lemma {:induction false} EncodeZero(n: nat)
    ensures forall i :: 0 <= i < n ==> LeBytes(0, n)[i] == 0
  {
    if n > 0 {
      EncodeZero(n - 1);
      assert forall i :: 1 <= i < n ==> LeBytes(0, n)[i] == LeBytes(0, n - 1)[i - 1];
    }
  }

  /** The low k bytes of the low n bytes are the low k bytes. */
  lemma {:induction false} EncodePrefix(v: nat, n: nat, k: nat)
    requires k <= n
    ensures LeBytes(v, n)[..k] == LeBytes(v, k)
  {
    if k > 0 {
      EncodePrefix(v / 256, n - 1, k - 1);
      assert LeBytes(v, n)[..k] == [v % 256] + LeBytes(v / 256, n - 1)[..k - 1];
    }
  }

  /** The byte count buf_get_u64 reads for a register of `bits` bits. */
  function U64Bytes(bits: nat): nat { Min(BytesFor(bits), 8) }

  /** buf_get_u64(buf, 0, bits): the register's bits as a 64-bit value. */
  function GetU64(buf: seq<Byte>, bits: nat): (r: nat)
    requires U64Bytes(bits) <= |buf|
    ensures r < U64Limit
  {
    Pow256Eight();
    PowMonotone(U64Bytes(bits), 8);
    LeValue(buf[..U64Bytes(bits)])
  }

  lemma {:induction false} PowMonotone(a: nat, b: nat)
    requires a <= b
    ensures Pow256(a) <= Pow256(b)
  {
    if a < b {
      PowMonotone(a, b - 1);
    }
  }

  /**
   * buf_set_u64(buf, 0, bits, v): the register's bytes become the encoding of
   * v; the bytes after them are untouched.
   */
  method SetU64(buf: array<Byte>, bits: nat, v: nat)
    requires BytesFor(bits) <= buf.Length
    modifies buf
    ensures buf[..BytesFor(bits)] == LeBytes(v, BytesFor(bits))
    ensures buf[BytesFor(bits)..] == old(buf[BytesFor(bits)..])
  {
    var image := LeBytes(v, BytesFor(bits));
    forall i | 0 <= i < BytesFor(bits) {
      buf[i] := image[i];
    }
  }

  /** memcpy(dst, src, |src|): the first |src| bytes of dst become src; the rest are untouched. */
  method CopyBytes(dst: array<Byte>, src: seq<Byte>)
    requires |src| <= dst.Length
    modifies dst
    ensures dst[..|src|] == src
    ensures dst[|src|..] == old(dst[|src|..])
  {
    forall i | 0 <= i < |src| {
      dst[i] := src[i];
    }
  }

  /** Reading back what SetU64 stored gives the stored value, truncated to the register. */
  lemma GetAfterSet(stored: seq<Byte>, bits: nat, v: nat)
    requires BytesFor(bits) <= |stored|
    requires stored[..BytesFor(bits)] == LeBytes(v, BytesFor(bits))
    ensures GetU64(stored, bits) == v % Pow256(U64Bytes(bits))
  {
    var n, k := BytesFor(bits), U64Bytes(bits);
    calc {
      stored[..k];
      stored[..n][..k];
      LeBytes(v, n)[..k];
      { EncodePrefix(v, n, k); }
      LeBytes(v, k);
    }
    DecodeEncode(v, k);
  }

  /** For a register of at least 64 bits, a 64-bit value reads back unchanged. */
  lemma GetAfterSetWide(stored: seq<Byte>, bits: nat, v: nat)
    requires 64 <= bits && v < U64Limit
    requires BytesFor(bits) <= |stored|
    requires stored[..BytesFor(bits)] == LeBytes(v, BytesFor(bits))
    ensures GetU64(stored, bits) == v
  {
    GetAfterSet(stored, bits, v);
    Pow256Eight();
  }

  /** A register whose bytes were set to the encoding of zero reads back as zero. */
  lemma GetAfterSetZero(stored: seq<Byte>, bits: nat)
    requires BytesFor(bits) <= |stored|
    requires stored[..BytesFor(bits)] == LeBytes(0, BytesFor(bits))
    ensures GetU64(stored, bits) == 0
  {
    EncodeZero(BytesFor(bits));
    GetZeroIff(stored, bits);
    assert forall i :: 0 <= i < U64Bytes(bits) ==> stored[i] == stored[..BytesFor(bits)][i];
  }

  /** buf_get_u64 yields zero exactly when the bytes it reads are all zero. */
  lemma GetZeroIff(buf: seq<Byte>, bits: nat)
    requires U64Bytes(bits) <= |buf|
    ensures GetU64(buf, bits) == 0 <==> forall i :: 0 <= i < U64Bytes(bits) ==> buf[i] == 0
  {
    ValueZeroIffAllZero(buf[..U64Bytes(bits)]);
  }
}
