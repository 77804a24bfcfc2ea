/// Bytes and the little-endian integers both the JSON decoder and the hash
/// read and write.
module Bytes {

  type byte = b: int | 0 <= b < 256

  /// The unsigned value of `bs` read least significant byte first.
  function LittleEndian(bs: seq<byte>): (v: nat)
    ensures v < Pow256(|bs|)
  {
    if bs == [] then 0 else bs[0] + 256 * LittleEndian(bs[1..])
  }

  /// `256^n`.
  function Pow256(n: nat): (p: nat)
    ensures p >= 1
  {
    if n == 0 then 1 else 256 * Pow256(n - 1)
  }

  /// The `n` bytes of `v` (modulo `256^n`), least significant first.
  function ToLittleEndian(v: nat, n: nat): (bs: seq<byte>)
    ensures |bs| == n
  {
    if n == 0 then [] else [v % 256] + ToLittleEndian(v / 256, n - 1)
  }

  /// Writing `n` little-endian bytes and reading them back gives the value
  /// whenever it fits.
  lemma {:induction false} LittleEndianRoundTrip(v: nat, n: nat)
    requires v < Pow256(n)
    ensures LittleEndian(ToLittleEndian(v, n)) == v
  {
    if n > 0 {
      LittleEndianRoundTrip(v / 256, n - 1);
    }
  }

  /// Reading a sequence split in two: the high part is scaled by `256^|lo|`.
  lemma {:induction false} LittleEndianAppend(lo: seq<byte>, hi: seq<byte>)
    ensures LittleEndian(lo + hi) == LittleEndian(lo) + Pow256(|lo|) * LittleEndian(hi)
  {
    if lo == [] {
      assert lo + hi == hi;
    } else {
      var rest := lo[1..];
      assert (lo + hi)[0] == lo[0];
      assert (lo + hi)[1..] == rest + hi;
      LittleEndianAppend(rest, hi);
      var a, p, h := LittleEndian(rest), Pow256(|rest|), LittleEndian(hi);
      assert LittleEndian(rest + hi) == a + p * h;
      assert LittleEndian(lo + hi) == lo[0] + 256 * (a + p * h);
      Distribute(a, p, h);
      assert Pow256(|lo|) == 256 * p;
    }
  }

  lemma Distribute(a: int, p: int, h: int)
    ensures 256 * (a + p * h) == 256 * a + (256 * p) * h
  {
  }

  /// `2^n`.
  function Pow2(n: nat): (p: nat)
    ensures p >= 1
  {
    if n == 0 then 1 else 2 * Pow2(n - 1)
  }

  lemma {:induction false} Pow2Add(a: nat, b: nat)
    ensures Pow2(a + b) == Pow2(a) * Pow2(b)
    decreases b
  {
    if b > 0 {
      Pow2Add(a, b - 1);
      var x, y := Pow2(a), Pow2(b - 1);
      assert Pow2(a + b) == 2 * (x * y);
      assert 2 * (x * y) == x * (2 * y);
    }
  }

  /// Eight bits to the byte: `2^(8k) == 256^k`.
  lemma {:induction false} Pow2Bytes(k: nat)
    ensures Pow2(8 * k) == Pow256(k)
  {
    if k > 0 {
      Pow2Bytes(k - 1);
      Pow2Add(8 * (k - 1), 8);
      assert 8 * k == 8 * (k - 1) + 8;
      assert Pow2(8) == 256;
    }
  }
}
