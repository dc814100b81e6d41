/** Bytes, little-endian words, alignment of offsets from an 8-aligned base. */
module Bytes {
  type byte = b: int | 0 <= b < 256

  type int32 = n: int | -0x8000_0000 <= n < 0x8000_0000
  type int64 = n: int | -0x8000_0000_0000_0000 <= n < 0x8000_0000_0000_0000

  /** A `double` or a `float`, kept as the bytes it occupies in memory. */
  type Block8 = s: seq<byte> | |s| == 8 witness [0, 0, 0, 0, 0, 0, 0, 0]
  type Block4 = s: seq<byte> | |s| == 4 witness [0, 0, 0, 0]

  function Pow256(k: nat): nat {
    if k == 0 then 1 else 256 * Pow256(k - 1)
  }

  /** The `k` low-order bytes of `n`, least significant first. */
  function LittleEndian(n: nat, k: nat): (s: seq<byte>)
    ensures |s| == k
  {
    if k == 0 then [] else [n % 256] + LittleEndian(n / 256, k - 1)
  }

  function FromLittleEndian(s: seq<byte>): nat {
    if s == [] then 0 else s[0] + 256 * FromLittleEndian(s[1..])
  }

  lemma {:induction false} LittleEndianRoundTrip(n: nat, k: nat)
    requires n < Pow256(k)
    ensures FromLittleEndian(LittleEndian(n, k)) == n
  {
    if k != 0 {
      LittleEndianRoundTrip(n / 256, k - 1);
      assert LittleEndian(n, k)[1..] == LittleEndian(n / 256, k - 1);
    }
  }

  lemma {:induction false} FromLittleEndianBound(s: seq<byte>)
    ensures FromLittleEndian(s) < Pow256(|s|)
  {
    if s != [] {
      FromLittleEndianBound(s[1..]);
    }
  }

  lemma Pow256Values()
    ensures Pow256(2) == 0x1_0000 && Pow256(4) == 0x1_0000_0000 && Pow256(8) == 0x1_0000_0000_0000_0000
  {
    assert Pow256(1) == 256;
    assert Pow256(3) == 0x100_0000;
    assert Pow256(5) == 0x100_0000_0000;
    assert Pow256(6) == 0x1_0000_0000_0000;
    assert Pow256(7) == 0x100_0000_0000_0000;
  }

  // Two's complement words.

  function EncodeInt32(x: int32): Block4 {
    LittleEndian(if x < 0 then x + 0x1_0000_0000 else x, 4)
  }

  function DecodeInt32(b: Block4): (x: int32) {
    FromLittleEndianBound(b);
    Pow256Values();
    var u := FromLittleEndian(b);
    if u < 0x8000_0000 then u else u - 0x1_0000_0000
  }

  function EncodeInt64(x: int64): Block8 {
    LittleEndian(if x < 0 then x + 0x1_0000_0000_0000_0000 else x, 8)
  }

  function DecodeInt64(b: Block8): (x: int64) {
    FromLittleEndianBound(b);
    Pow256Values();
    var u := FromLittleEndian(b);
    if u < 0x8000_0000_0000_0000 then u else u - 0x1_0000_0000_0000_0000
  }

  lemma Int32RoundTrip(x: int32)
    ensures DecodeInt32(EncodeInt32(x)) == x
  {
    Pow256Values();
    LittleEndianRoundTrip(if x < 0 then x + 0x1_0000_0000 else x, 4);
  }

  lemma Int64RoundTrip(x: int64)
    ensures DecodeInt64(EncodeInt64(x)) == x
  {
    Pow256Values();
    LittleEndianRoundTrip(if x < 0 then x + 0x1_0000_0000_0000_0000 else x, 8);
  }

  // Alignment.

  predicate IsAlignment(a: nat) { a == 1 || a == 4 || a == 8 }

  /** The first multiple of `a` that is not below `p`. */
  function AlignUp(p: nat, a: nat): (q: nat)
    requires IsAlignment(a)
    ensures p <= q < p + a
    ensures (a == 4 ==> q % 4 == 0) && (a == 8 ==> q % 8 == 0)
  {
    Multiples((p + 3) / 4, (p + 7) / 8);
    if a == 1 then p else if a == 4 then (p + 3) / 4 * 4 else (p + 7) / 8 * 8
  }

  lemma Multiples(k: nat, n: nat)
    ensures k * 4 % 4 == 0 && n * 8 % 8 == 0
  {
  }

  /** `p | (a - 1)` for a power of two `a`. */
  function OrMask(p: nat, a: nat): nat
    requires IsAlignment(a)
  {
    if a == 1 then p else if a == 4 then p - p % 4 + 3 else p - p % 8 + 7
  }

  /** The codec's rounding, `((p + m) | m) - m` with `m = a - 1`. */
  function CodecAlign(p: nat, a: nat): int
    requires IsAlignment(a)
  {
    OrMask(p + (a - 1), a) - (a - 1)
  }

  /** The raw API's rounding: `(p | m) + 1` when `p & m` is non-zero. */
  function RawAlign(p: nat, a: nat): nat
    requires IsAlignment(a)
  {
    if (a == 4 && p % 4 != 0) || (a == 8 && p % 8 != 0) then OrMask(p, a) + 1 else p
  }

  lemma AlignmentsAgree(p: nat, a: nat)
    requires IsAlignment(a)
    ensures CodecAlign(p, a) == AlignUp(p, a) == RawAlign(p, a)
  {
    if a == 4 {
      Align4(p);
    } else if a == 8 {
      Align8(p);
    }
  }

  lemma Align4(p: nat)
    ensures CodecAlign(p, 4) == AlignUp(p, 4) == RawAlign(p, 4)
  {
    var q, r := p / 4, p % 4;
    assert p == 4 * q + r;
    assert (p + 3) / 4 == if r == 0 then q else q + 1;
    assert (p + 3) % 4 == if r == 0 then 3 else r - 1;
  }

  lemma Align8(p: nat)
    ensures CodecAlign(p, 8) == AlignUp(p, 8) == RawAlign(p, 8)
  {
    var q, r := p / 8, p % 8;
    assert p == 8 * q + r;
    assert (p + 7) / 8 == if r == 0 then q else q + 1;
    assert (p + 7) % 8 == if r == 0 then 7 else r - 1;
  }

  // Arrays of fixed-size blocks.

  function Concat(blocks: seq<seq<byte>>): seq<byte> {
    if blocks == [] then [] else Concat(blocks[..|blocks| - 1]) + blocks[|blocks| - 1]
  }

  /** The `i`-th block of `k` bytes. */
  function BlockAt(s: seq<byte>, k: nat, i: nat): (b: seq<byte>)
    requires (i + 1) * k <= |s|
    ensures |b| == k
  {
    assert i * k + k == (i + 1) * k;
    s[i * k..(i + 1) * k]
  }

  lemma {:induction false} ConcatLength(blocks: seq<seq<byte>>, k: nat)
    requires forall i :: 0 <= i < |blocks| ==> |blocks[i]| == k
    ensures |Concat(blocks)| == |blocks| * k
  {
    if blocks != [] {
      var n := |blocks| - 1;
      ConcatLength(blocks[..n], k);
      assert (n + 1) * k == n * k + k;
    }
  }

  lemma {:induction false} ConcatBlockAt(blocks: seq<seq<byte>>, k: nat, i: nat)
    requires forall j :: 0 <= j < |blocks| ==> |blocks[j]| == k
    requires i < |blocks|
    ensures |Concat(blocks)| == |blocks| * k && (i + 1) * k <= |blocks| * k
    ensures BlockAt(Concat(blocks), k, i) == blocks[i]
  {
    ConcatLength(blocks, k);
    var n := |blocks| - 1;
    var front := blocks[..n];
    ConcatLength(front, k);
    assert Concat(blocks) == Concat(front) + blocks[n];
    assert (n + 1) * k == n * k + k;
    if i < n {
      ConcatBlockAt(front, k, i);
      assert Concat(blocks)[i * k..(i + 1) * k] == Concat(front)[i * k..(i + 1) * k];
    }
  }

  /** A slice of a slice. */
  lemma SubSlice(m: seq<byte>, p: nat, n: nat, lo: nat, hi: nat)
    requires p + n <= |m| && lo <= hi <= n
    ensures m[p..p + n][lo..hi] == m[p + lo..p + hi]
  {
    var s, t := m[p..p + n][lo..hi], m[p + lo..p + hi];
    assert |s| == |t| && forall i :: 0 <= i < |s| ==> s[i] == t[i];
  }
}
