/// The HighwayHash streaming digest: a `Digest` keeps the compression state,
/// a 32-byte buffer for the tail of the input that does not yet fill a block,
/// and the number of bytes in that buffer. The compression functions
/// themselves (`initialize`, `update`, `finalize`) are defined in files that
/// are not part of this model; they are taken as given functions.
module Highway {
  import opened Bytes
  import opened Wrappers

  /// Go's `Size`: the length of a HighwayHash-256 checksum, and the block size.
  const Size256: nat := 32
  /// The length of a HighwayHash-128 checksum.
  const Size128: nat := 16

  /// The sixteen 64-bit lanes of the state: v0 | v1 | mul0 | mul1.
  type Lanes = s: seq<bv64> | |s| == 16 witness seq(16, _ => 0)
  /// A 32-byte block, also the shape of a key.
  type Block = s: seq<byte> | |s| == 32 witness seq(32, _ => 0)

  /// The key-size error a one-shot checksum panics with.
  datatype Error = InvalidKeySize

  /// The compression functions, not modelled: `initialize` sets the state
  /// from a key, `updateBlock` mixes in one 32-byte block and `finalize`
  /// produces the checksum of the requested length in the first bytes of a
  /// 32-byte array.
  datatype Compression = Compression(
    initialize: Block -> Lanes,
    updateBlock: (Lanes, Block) -> Lanes,
    finalize: (Lanes, nat) -> Block)

  /// `update`: the blocks of `data` mixed in one after the other.
  function UpdateAll(c: Compression, s: Lanes, data: seq<byte>): Lanes
    requires |data| % 32 == 0
    decreases |data|
  {
    if data == [] then s else UpdateAll(c, c.updateBlock(s, data[..32]), data[32..])
  }

  /// Feeding `a` and then `b` is feeding `a + b`: this is what lets a digest
  /// hand its input to `update` in whatever pieces it is written.
  lemma {:induction false} UpdateAllAppend(c: Compression, s: Lanes, a: seq<byte>, b: seq<byte>)
    requires |a| % 32 == 0 && |b| % 32 == 0
    ensures UpdateAll(c, s, a + b) == UpdateAll(c, UpdateAll(c, s, a), b)
    decreases |a|
  {
    if a == [] {
      assert a + b == b;
    } else {
      assert (a + b)[..32] == a[..32];
      assert (a + b)[32..] == a[32..] + b;
      UpdateAllAppend(c, c.updateBlock(s, a[..32]), a[32..], b);
    }
  }

  /// The largest multiple of 32 not above `n` (`n & ^(Size-1)` for `n >= 0`).
  function WholeBlocks(n: nat): (m: nat)
    ensures m <= n < m + 32 && m % 32 == 0
  {
    n / 32 * 32
  }

  // ---------------------------------------------------------------------
  // hashBuffer: mixing in a partial final block of `offset` bytes

  /// The 32-bit halves of a lane.
  function Lo(x: bv64): bv32 { (x & 0xFFFF_FFFF) as bv32 }
  function Hi(x: bv64): bv32 { (x >> 32) as bv32 }
  function Join(hi: bv32, lo: bv32): bv64 { ((hi as bv64) << 32) | (lo as bv64) }

  /// `(t << k) | (t >> (32 - k))` on a 32-bit word.
  function Rotl32(t: bv32, k: bv32): bv32
    requires 0 < k < 32
  {
    (t << k) | (t >> (32 - k))
  }

  /// The lane changes `hashBuffer` makes before mixing the block in: lanes
  /// 0..3 (v0) grow by `(offset << 32) + offset`, each 32-bit half of lanes
  /// 4..7 (v1) is rotated left by `offset`, lanes 8..15 are kept.
  function MixLength(s: Lanes, offset: nat): (r: Lanes)
    requires 0 < offset < 32
  {
    seq(16, i requires 0 <= i < 16 =>
      if i < 4 then AddLength(s[i], offset as bv64)
      else if i < 8 then RotateHalves(s[i], offset as bv32)
      else s[i])
  }

  /// A v0 lane after `v0[i] += (offset << 32) + offset`.
  function AddLength(x: bv64, offset: bv64): bv64
    requires offset < 32
  {
    x + ((offset << 32) + offset)
  }

  /// A v1 lane after each of its 32-bit halves is rotated left by `offset`.
  function RotateHalves(x: bv64, offset: bv32): bv64
    requires 0 < offset < 32
  {
    Join(Rotl32(Hi(x), offset), Rotl32(Lo(x), offset))
  }

  /// The block `hashBuffer` mixes in for the first `offset` bytes of
  /// `buffer`: the whole 4-byte groups are copied to the front; then either
  /// the last four bytes go to bytes 28..31 (`offset >= 16`) or, when
  /// `offset % 4 != 0`, the first, middle and last byte of the partial group
  /// go to bytes 16..18; everything else is zero.
  function PadBlock(buffer: seq<byte>, offset: nat): (b: Block)
    requires 0 < offset < 32 && |buffer| >= offset
  {
    var mod4 := offset % 4;
    var remain := offset - mod4;
    seq(32, j requires 0 <= j < 32 =>
      if j < remain then buffer[j]
      else if offset >= 16 && j >= 28 then buffer[offset - 4 + (j - 28)]
      else if offset < 16 && mod4 != 0 && j == 16 then buffer[remain]
      else if offset < 16 && mod4 != 0 && j == 17 then buffer[remain + mod4 / 2]
      else if offset < 16 && mod4 != 0 && j == 18 then buffer[offset - 1]
      else 0)
  }

  /// The padded block depends on the first `offset` bytes only: stale bytes
  /// left in a digest's buffer by earlier writes never reach the state.
  lemma PadBlockReadsPrefix(a: seq<byte>, b: seq<byte>, offset: nat)
    requires 0 < offset < 32 && |a| >= offset && |b| >= offset
    requires a[..offset] == b[..offset]
    ensures PadBlock(a, offset) == PadBlock(b, offset)
  {
    var pa, pb := PadBlock(a, offset), PadBlock(b, offset);
    forall j | 0 <= j < 32 ensures pa[j] == pb[j] {
      var mod4 := offset % 4;
      var remain := offset - mod4;
      assert remain + mod4 / 2 < offset || mod4 == 0;
      if j < remain {
        assert a[j] == a[..offset][j];
      }
    }
  }

  /// No bit crosses between the halves of a v1 lane: each half comes out
  /// as its own rotation.
  lemma RotateHalvesIndependent(x: bv64, offset: bv32)
    requires 0 < offset < 32
    ensures Hi(RotateHalves(x, offset)) == Rotl32(Hi(x), offset)
    ensures Lo(RotateHalves(x, offset)) == Rotl32(Lo(x), offset)
  {
    JoinHalves(Rotl32(Hi(x), offset), Rotl32(Lo(x), offset));
  }

  lemma JoinHalves(hi: bv32, lo: bv32)
    ensures Hi(Join(hi, lo)) == hi && Lo(Join(hi, lo)) == lo
  {
  }

  /// `copy(dst[at:], src)` into an array.
  method CopyInto(dst: array<byte>, at: nat, src: seq<byte>)
    requires at + |src| <= dst.Length
    modifies dst
    ensures dst[..] == dst[..at] + src + old(dst[at + |src|..])
    ensures dst[..at] == old(dst[..at])
  {
    forall k | 0 <= k < |src| {
      dst[at + k] := src[k];
    }
    assert dst[..] == dst[..at] + src + old(dst[at + |src|..]);
  }

  /// `update(&state, data)`: the state array takes the lanes after `data`.
  method Update(c: Compression, state: array<bv64>, data: seq<byte>)
    requires state.Length == 16 && |data| % 32 == 0
    modifies state
    ensures state[..] == UpdateAll(c, old(state[..]), data)
  {
    var i := 0;
    while i < |data|
      invariant 0 <= i <= |data| && i % 32 == 0
      invariant UpdateAll(c, old(state[..]), data) == UpdateAll(c, state[..], data[i..])
      decreases |data| - i
    {
      assert data[i..][..32] == data[i..i + 32];
      assert data[i..][32..] == data[i + 32..];
      var next := c.updateBlock(state[..], data[i..i + 32]);
      forall k | 0 <= k < 16 {
        state[k] := next[k];
      }
      assert state[..] == next;
      i := i + 32;
    }
    assert data[i..] == [];
  }

  /// `hashBuffer(state, buffer, offset)`: mixes a partial final block of
  /// `offset` bytes into the state in place.
  method HashBuffer(c: Compression, state: array<bv64>, buffer: array<byte>, offset: nat)
    requires state.Length == 16 && buffer.Length == 32 && 0 < offset < 32
    modifies state
    ensures state[..] == c.updateBlock(MixLength(old(state[..]), offset), PadBlock(buffer[..], offset))
  {
    MixLengthInto(state, offset);
    var block := PaddedBlock(buffer, offset);
    Update(c, state, block);
    assert block[..32] == block;
  }

  /// `if offset > 0 { hashBuffer(state, buffer, offset) }`: the first
  /// `offset` bytes of the buffer are mixed in as the final block.
  method HashTail(c: Compression, state: array<bv64>, buffer: array<byte>, offset: nat)
    requires state.Length == 16 && buffer.Length == 32 && offset < 32
    modifies state
    ensures state[..] == MixTail(c, old(state[..]), buffer[..offset])
  {
    if offset > 0 {
      MixTailOfBuffer(c, state[..], buffer[..], buffer[..offset]);
      HashBuffer(c, state, buffer, offset);
    }
  }

  /// The two lane loops of `hashBuffer`.
  method MixLengthInto(state: array<bv64>, offset: nat)
    requires state.Length == 16 && 0 < offset < 32
    modifies state
    ensures state[..] == MixLength(old(state[..]), offset)
  {
    AddLengthLanes(state, offset as bv64);
    RotateLanes(state, offset as bv32);
    forall k | 0 <= k < 16 ensures state[..][k] == MixLength(old(state[..]), offset)[k] {
    }
  }

  /// `v0[i] += (offset << 32) + offset` for the four v0 lanes.
  method AddLengthLanes(state: array<bv64>, offset: bv64)
    requires state.Length == 16 && 0 < offset < 32
    modifies state
    ensures forall k :: 0 <= k < 4 ==> state[k] == AddLength(old(state[k]), offset)
    ensures forall k :: 4 <= k < 16 ==> state[k] == old(state[k])
  {
    var mod32: bv64 := (offset << 32) + offset;
    for i := 0 to 4
      invariant forall k :: 0 <= k < i ==> state[k] == AddLength(old(state[k]), offset)
      invariant forall k :: i <= k < 16 ==> state[k] == old(state[k])
    {
      state[i] := state[i] + mod32;
    }
  }

  /// Rotates both 32-bit halves of the four v1 lanes left by `offset`.
  method RotateLanes(state: array<bv64>, offset: bv32)
    requires state.Length == 16 && 0 < offset < 32
    modifies state
    ensures forall k :: 0 <= k < 4 || 8 <= k < 16 ==> state[k] == old(state[k])
    ensures forall k :: 4 <= k < 8 ==> state[k] == RotateHalves(old(state[k]), offset)
  {
    for i := 0 to 4
      invariant forall k :: 0 <= k < 4 || 4 + i <= k < 16 ==> state[k] == old(state[k])
      invariant forall k :: 4 <= k < 4 + i ==> state[k] == RotateHalves(old(state[k]), offset)
    {
      var t0 := Rotl32(Lo(state[i + 4]), offset);
      var t1 := Rotl32(Hi(state[i + 4]), offset);
      state[i + 4] := Join(t1, t0);
    }
  }

  /// `n` zero bytes.
  function Zeros(n: nat): (z: seq<byte>)
    ensures |z| == n && forall j :: 0 <= j < n ==> z[j] == 0
  {
    seq(n, _ => 0)
  }

  /// The padded block of a tail of at least 16 bytes: its whole groups, then
  /// zeros, then its last four bytes at 28..31.
  lemma PadBlockLong(buffer: seq<byte>, offset: nat)
    requires 16 <= offset < 32 && |buffer| >= offset
    ensures var remain := offset - offset % 4;
      PadBlock(buffer, offset) == buffer[..remain] + Zeros(28 - remain) + buffer[offset - 4..offset]
  {
  }

  /// The padded block of a tail shorter than 16 bytes that ends inside a
  /// group: its whole groups, zeros, the three chosen bytes at 16..18, zeros.
  lemma PadBlockShort(buffer: seq<byte>, offset: nat)
    requires 0 < offset < 16 && offset % 4 != 0 && |buffer| >= offset
    ensures var remain := offset - offset % 4;
      PadBlock(buffer, offset)
      == buffer[..remain] + Zeros(16 - remain)
         + [buffer[remain], buffer[remain + offset % 4 / 2], buffer[offset - 1], 0] + Zeros(12)
  {
  }

  /// The padded block of a tail shorter than 16 bytes made of whole groups:
  /// the groups, then zeros.
  lemma PadBlockAligned(buffer: seq<byte>, offset: nat)
    requires 0 < offset < 16 && offset % 4 == 0 && |buffer| >= offset
    ensures PadBlock(buffer, offset) == buffer[..offset] + Zeros(32 - offset)
  {
  }

  /// A fresh zeroed block with the first `remain` bytes of `buffer` copied
  /// to the front.
  method GroupsBlock(buffer: array<byte>, remain: nat) returns (block: array<byte>)
    requires buffer.Length == 32 && remain <= 32
    ensures fresh(block) && block[..] == buffer[..remain] + Zeros(32 - remain)
  {
    block := new byte[32](_ => 0);
    assert forall j :: 0 <= j < 32 ==> block[..][j] == Zeros(32)[j];
    CopyInto(block, 0, buffer[..remain]);
    assert Zeros(32)[remain..] == Zeros(32 - remain);
  }

  /// The block for a tail of at least 16 bytes.
  method LongTailBlock(buffer: array<byte>, offset: nat) returns (b: seq<byte>)
    requires buffer.Length == 32 && 16 <= offset < 32
    ensures var remain := offset - offset % 4;
      b == buffer[..remain] + Zeros(28 - remain) + buffer[offset - 4..offset]
  {
    var remain := offset - offset % 4;
    var block := GroupsBlock(buffer, remain);
    CopyInto(block, 28, buffer[offset - 4..offset]);
    assert block[..28] == buffer[..remain] + Zeros(28 - remain);
    b := block[..];
  }

  /// The block for a tail shorter than 16 bytes that ends inside a group.
  method ShortTailBlock(buffer: array<byte>, offset: nat) returns (b: seq<byte>)
    requires buffer.Length == 32 && 0 < offset < 16 && offset % 4 != 0
    ensures var remain := offset - offset % 4;
      b == buffer[..remain] + Zeros(16 - remain)
           + [buffer[remain], buffer[remain + offset % 4 / 2], buffer[offset - 1], 0] + Zeros(12)
  {
    var mod4 := offset % 4;  // offset & 3
    var remain := offset - mod4;
    var block := GroupsBlock(buffer, remain);
    // The three bytes never overlap, so the uint32 sum is exact.
    var last: nat := buffer[remain] as int;
    last := last + (buffer[remain + mod4 / 2] as int) * 256;
    last := last + (buffer[offset - 1] as int) * 65536;
    PackThreeBytes(buffer[remain], buffer[remain + mod4 / 2], buffer[offset - 1]);
    CopyInto(block, 16, ToLittleEndian(last, 4));  // PutUint32(block[16:], last)
    assert block[..16] == buffer[..remain] + Zeros(16 - remain);
    assert Zeros(32 - remain)[20 - remain..] == Zeros(12);
    b := block[..];
  }

  /// The block-building half of `hashBuffer`, on a fresh zeroed block.
  method PaddedBlock(buffer: array<byte>, offset: nat) returns (b: Block)
    requires buffer.Length == 32 && 0 < offset < 32
    ensures b == PadBlock(buffer[..], offset)
  {
    if offset >= 16 {
      b := LongTailBlock(buffer, offset);
      PadBlockLong(buffer[..], offset);
    } else if offset % 4 != 0 {
      b := ShortTailBlock(buffer, offset);
      PadBlockShort(buffer[..], offset);
    } else {
      var block := GroupsBlock(buffer, offset);
      b := block[..];
      PadBlockAligned(buffer[..], offset);
    }
  }

  /// The packed tail word, written little-endian, is its three bytes and a 0.
  lemma PackThreeBytes(b0: byte, b1: byte, b2: byte)
    ensures ToLittleEndian(b0 as int + (b1 as int) * 256 + (b2 as int) * 65536, 4) == [b0, b1, b2, 0]
  {
    var v := b0 as int + (b1 as int) * 256 + (b2 as int) * 65536;
    var v1 := b1 as int + (b2 as int) * 256;
    assert v % 256 == b0 && v / 256 == v1;
    assert v1 % 256 == b1 && v1 / 256 == b2 as int;
    assert b2 % 256 == b2 && b2 / 256 == 0;
    assert ToLittleEndian(0, 1) == [0];
    assert ToLittleEndian(b2, 2) == [b2, 0];
    assert ToLittleEndian(v1, 3) == [b1, b2, 0];
  }

  // ---------------------------------------------------------------------
  // The checksum of a whole input, and the one-shot functions

  /// The checksum of `data` under `key`, `size` bytes long: the whole blocks
  /// are mixed in with `update`, a partial tail with `hashBuffer`, and the
  /// result is finalized.
  function HashOf(c: Compression, key: Block, data: seq<byte>, size: nat): (h: seq<byte>)
    requires size <= Size256
    ensures |h| == size
  {
    var n := WholeBlocks(|data|);
    c.finalize(MixTail(c, UpdateAll(c, c.initialize(key), data[..n]), data[n..]), size)[..size]
  }

  /// The state after a partial final block `tail` (shorter than a block) is
  /// mixed in by `hashBuffer`; an empty tail leaves it as it was.
  function MixTail(c: Compression, s: Lanes, tail: seq<byte>): Lanes
    requires |tail| < 32
  {
    if |tail| > 0 then c.updateBlock(MixLength(s, |tail|), PadBlock(tail, |tail|)) else s
  }

  /// `hashBuffer` on a buffer that starts with `tail` computes `MixTail`:
  /// whatever follows the tail in the buffer does not matter.
  lemma MixTailOfBuffer(c: Compression, s: Lanes, buffer: seq<byte>, tail: seq<byte>)
    requires 0 < |tail| < 32 && |buffer| >= |tail| && buffer[..|tail|] == tail
    ensures MixTail(c, s, tail) == c.updateBlock(MixLength(s, |tail|), PadBlock(buffer, |tail|))
  {
    assert tail[..|tail|] == tail;
    PadBlockReadsPrefix(buffer, tail, |tail|);
  }

  /// `initialize(&state, key)`.
  method Initialize(c: Compression, state: array<bv64>, key: Block)
    requires state.Length == 16
    modifies state
    ensures state[..] == c.initialize(key)
  {
    var init := c.initialize(key);
    forall k | 0 <= k < 16 {
      state[k] := init[k];
    }
  }

  /// `Sum(data, key)`: the HighwayHash-256 checksum; a key that is not 32
  /// bytes long is the `errKeySize` panic.
  method Sum(c: Compression, data: seq<byte>, key: seq<byte>) returns (r: Result<seq<byte>, Error>)
    ensures |key| != Size256 ==> r == Err(InvalidKeySize)
    ensures |key| == Size256 ==> r == Ok(HashOf(c, key, data, Size256))
  {
    r := Checksum(c, data, key, Size256);
  }

  /// `Sum128(data, key)`: the HighwayHash-128 checksum, with the same panic.
  method Sum128(c: Compression, data: seq<byte>, key: seq<byte>) returns (r: Result<seq<byte>, Error>)
    ensures |key| != Size256 ==> r == Err(InvalidKeySize)
    ensures |key| == Size256 ==> r == Ok(HashOf(c, key, data, Size128))
  {
    r := Checksum(c, data, key, Size128);
  }

  /// The body `Sum` and `Sum128` share, for a checksum of `size` bytes.
  method Checksum(c: Compression, data: seq<byte>, key: seq<byte>, size: nat) returns (r: Result<seq<byte>, Error>)
    requires size == Size256 || size == Size128
    ensures |key| != Size256 ==> r == Err(InvalidKeySize)
    ensures |key| == Size256 ==> r == Ok(HashOf(c, key, data, size))
  {
    if |key| != Size256 {
      return Err(InvalidKeySize);
    }
    var state := new bv64[16];
    Initialize(c, state, key);
    var rest := data;
    var n := WholeBlocks(|data|);  // len(data) & ^(Size-1)
    if n > 0 {
      Update(c, state, data[..n]);
      rest := data[n..];
    } else {
      assert data[..n] == [];
    }
    assert rest == data[n..] && data == data[..n] + rest;
    assert state[..] == UpdateAll(c, c.initialize(key), data[..n]);
    HashOfWhole(c, key, data[..n], rest, size);
    var hash := FinishTail(c, state, rest, size);
    r := Ok(hash);
  }

  /// The end of `Sum`/`Sum128`: the partial tail is copied into a zeroed
  /// block and mixed in, then the state is finalized.
  method FinishTail(c: Compression, state: array<bv64>, rest: seq<byte>, size: nat) returns (hash: seq<byte>)
    requires state.Length == 16 && |rest| < 32 && size <= Size256
    modifies state
    ensures hash == c.finalize(MixTail(c, old(state[..]), rest), size)[..size]
  {
    var block := new byte[32](_ => 0);
    CopyInto(block, 0, rest);
    assert block[..|rest|] == rest;
    HashTail(c, state, block, |rest|);
    var h := c.finalize(state[..], size);
    hash := h[..size];
  }

  // ---------------------------------------------------------------------
  // The streaming digest

  type uint16 = x: int | 0 <= x < 0x1_0000

  class Digest {
    const c: Compression
    const key: Block
    /// Checksum length: `Size` or `Size128`.
    const size: nat
    /// The lanes: v0 | v1 | mul0 | mul1.
    const state: array<bv64>
    /// The bytes written since the last full block; the first `offset` count.
    const buffer: array<byte>
    var offset: nat
    /// Everything written since the last `Reset`.
    ghost var written: seq<byte>
    /// The prefix of `written` already mixed into `state`.
    ghost var fed: seq<byte>

    /// The fixed shape of a digest.
    ghost predicate Shaped()
      reads this
    {
      state.Length == 16 && buffer.Length == 32 && (size == Size256 || size == Size128)
    }

    /// The state holds the whole blocks written so far and the buffer the
    /// rest, which is always shorter than a block.
    ghost predicate Valid()
      reads this, state, buffer
    {
      Shaped()
      && offset < Size256
      && |fed| % 32 == 0
      && written == fed + buffer[..offset]
      && state[..] == UpdateAll(c, c.initialize(key), fed)
    }

    /// `New(key)`: a HighwayHash-256 digest.
    constructor New(c: Compression, key: Block)
      ensures Valid() && this.c == c && this.key == key && size == Size256 && written == []
      ensures fresh(state) && fresh(buffer)
    {
      this.c := c;
      this.key := key;
      size := Size256;
      state := new bv64[16];
      buffer := new byte[32](_ => 0);
      new;
      Reset();
    }

    /// `New128(key)`: a HighwayHash-128 digest.
    constructor New128(c: Compression, key: Block)
      ensures Valid() && this.c == c && this.key == key && size == Size128 && written == []
      ensures fresh(state) && fresh(buffer)
    {
      this.c := c;
      this.key := key;
      size := Size128;
      state := new bv64[16];
      buffer := new byte[32](_ => 0);
      new;
      Reset();
    }

    /// Back to the state of a fresh digest; the buffer keeps its stale bytes.
    method Reset()
      requires Shaped()
      modifies this, state
      ensures Valid() && written == [] && offset == 0
    {
      Initialize(c, state, key);
      offset := 0;
      written, fed := [], [];
      assert UpdateAll(c, c.initialize(key), []) == c.initialize(key);
    }

    /// `Write(p)`: takes every byte and never fails.
    method Write(p: seq<byte>) returns (n: nat, err: Option<Error>)
      requires Valid()
      modifies this, state, buffer
      ensures Valid() && written == old(written) + p
      ensures n == |p| && err == None
    {
      n, err := |p|, None;
      var rest := p;
      if offset > 0 {
        var remaining := Size256 - offset;
        if n < remaining {
          Buffer(p);
          return;
        }
        Flush(p[..remaining]);
        rest := p[remaining..];
        assert p == p[..remaining] + rest;
      }
      WriteAligned(rest);
    }

    /// The rest of `Write` once nothing is buffered: whole blocks go straight
    /// to the state, the remainder to the buffer.
    method WriteAligned(q: seq<byte>)
      requires Valid() && offset == 0
      modifies this, state, buffer
      ensures Valid() && written == old(written) + q
    {
      var rest := q;
      var nn := WholeBlocks(|rest|);  // len(p) & ^(Size-1)
      if nn > 0 {
        Absorb(rest[..nn]);
        rest := rest[nn..];
        assert q == q[..nn] + rest;
      }
      if |rest| > 0 {
        Buffer(rest);
      }
    }

    /// Appends `q` to the buffered bytes, which stay short of a block.
    method Buffer(q: seq<byte>)
      requires Valid() && offset + |q| < Size256
      modifies this, buffer
      ensures Valid() && written == old(written) + q && offset == old(offset) + |q|
      ensures fed == old(fed)
    {
      CopyInto(buffer, offset, q);
      assert buffer[..offset + |q|] == old(buffer[..offset]) + q;
      offset := offset + |q|;
      written := written + q;
    }

    /// Completes the buffered block with `q` and mixes it into the state.
    method Flush(q: seq<byte>)
      requires Valid() && offset + |q| == Size256
      modifies this, state, buffer
      ensures Valid() && written == old(written) + q && offset == 0
    {
      CopyInto(buffer, offset, q);
      assert buffer[..] == old(buffer[..offset]) + q;
      UpdateAllAppend(c, c.initialize(key), fed, buffer[..]);
      Update(c, state, buffer[..]);
      fed := fed + buffer[..];
      offset := 0;
      written := written + q;
    }

    /// Mixes whole blocks straight into the state, with nothing buffered.
    method Absorb(q: seq<byte>)
      requires Valid() && offset == 0 && |q| % 32 == 0
      modifies this, state
      ensures Valid() && written == old(written) + q && offset == 0
    {
      UpdateAllAppend(c, c.initialize(key), fed, q);
      Update(c, state, q);
      fed := fed + q;
      written := written + q;
    }

    /// `WriteUint16(x)`: writes the two little-endian bytes of `x`.
    method WriteUint16(x: uint16) returns (n: nat, err: Option<Error>)
      requires Valid()
      modifies this, state, buffer
      ensures Valid() && written == old(written) + ToLittleEndian(x, 2)
      ensures LittleEndian(written[|written| - 2..]) == x
      ensures n == 2 && err == None
    {
      var b := ToLittleEndian(x, 2);  // PutUint16
      n, err := Write(b);
      assert written[|written| - 2..] == b;
      LittleEndianRoundTrip(x, 2);
    }

    /// `WriteString(str)`: writes the bytes of the string.
    method WriteString(str: seq<byte>) returns (n: nat, err: Option<Error>)
      requires Valid()
      modifies this, state, buffer
      ensures Valid() && written == old(written) + str
      ensures n == |str| && err == None
    {
      n, err := Write(str);
    }

    /// `Size()`: how many bytes `Sum` appends, 32 or 16.
    method Size() returns (n: nat)
      requires Valid()
      ensures n == Size256 || n == Size128
      ensures forall b :: |b + HashOf(c, key, written, size)| == |b| + n
    {
      n := size;
    }

    /// `BlockSize()`: the length of the blocks `update` consumes.
    method BlockSize() returns (n: nat)
      requires Valid()
      ensures n == Size256 && |fed| % n == 0 && offset < n
    {
      n := Size256;
    }

    /// `Sum(b)`: appends the checksum of everything written since the last
    /// reset, whatever pieces it was written in, to `b`; the digest itself
    /// is left as it was.
    method Sum(b: seq<byte>) returns (r: seq<byte>)
      requires Valid()
      ensures r == b + HashOf(c, key, written, size)
    {
      ghost var whole := state[..];
      ghost var tail := buffer[..offset];
      assert whole == UpdateAll(c, c.initialize(key), fed) && written == fed + tail;
      HashOfWhole(c, key, fed, tail, size);
      var st := new bv64[16];
      forall k | 0 <= k < 16 {
        st[k] := state[k];
      }
      assert st[..] == whole;
      HashTail(c, st, buffer, offset);
      assert buffer[..offset] == tail;
      var hash := c.finalize(st[..], size);
      assert hash[..size] == HashOf(c, key, written, size);
      r := b + hash[..size];
    }
  }

  /// The checksum of whole blocks followed by less than a block: the
  /// whole blocks are compressed, then the tail is mixed in.
  lemma HashOfWhole(c: Compression, key: Block, fed: seq<byte>, tail: seq<byte>, size: nat)
    requires size <= Size256 && |fed| % 32 == 0 && |tail| < 32
    ensures HashOf(c, key, fed + tail, size) == c.finalize(MixTail(c, UpdateAll(c, c.initialize(key), fed), tail), size)[..size]
  {
    BlocksOfWritten(fed, tail);
  }

  /// Whole blocks followed by less than a block: the whole blocks are
  /// exactly the first part.
  lemma BlocksOfWritten(fed: seq<byte>, tail: seq<byte>)
    requires |fed| % 32 == 0 && |tail| < 32
    ensures WholeBlocks(|fed + tail|) == |fed|
    ensures (fed + tail)[..|fed|] == fed && (fed + tail)[|fed|..] == tail
  {
    var k := |fed| / 32;
    assert |fed| == k * 32;
    assert (|fed| + |tail|) / 32 == k;
  }
}
