/// MySQL's binary JSON encoding (the `json_binary` format) as it appears in
/// binlog row events, and the JSON diffs of partial-update row events.
///
/// The first half of this module states the decoder as functions over the
/// input bytes; the second half is the decoder as the loops that read it,
/// each proved to compute its function. Where the decoder indexes past the
/// end of its input (a run-time panic), the functions return `OutOfBounds`.
module BinlogJson {
  import opened Bytes
  import opened Decimal
  import opened Wrappers

  // ---------------------------------------------------------------------
  // Constants of the format

  /// Type tags of a binary JSON value.
  const SmallObject: byte := 0
  const LargeObject: byte := 1
  const SmallArray: byte := 2
  const LargeArray: byte := 3
  const LiteralTag: byte := 4
  const Int16Tag: byte := 5
  const Uint16Tag: byte := 6
  const Int32Tag: byte := 7
  const Uint32Tag: byte := 8
  const Int64Tag: byte := 9
  const Uint64Tag: byte := 10
  const DoubleTag: byte := 11
  const StringTag: byte := 12
  const OpaqueTag: byte := 15

  /// The three literal bytes.
  const NullLiteral: byte := 0
  const TrueLiteral: byte := 1
  const FalseLiteral: byte := 2

  /// MySQL column types (`enum_field_types`) an opaque value may carry.
  const TypeDecimal: byte := 0
  const TypeTimestamp: byte := 7
  const TypeDate: byte := 10
  const TypeTime: byte := 11
  const TypeDateTime: byte := 12
  const TypeVarchar: byte := 15
  const TypeBit: byte := 16
  const TypeTimestamp2: byte := 17
  const TypeDateTime2: byte := 18
  const TypeTime2: byte := 19
  const TypeNewDecimal: byte := 246
  const TypeTinyBlob: byte := 249
  const TypeMediumBlob: byte := 250
  const TypeLongBlob: byte := 251
  const TypeBlob: byte := 252
  const TypeVarString: byte := 253
  const TypeString: byte := 254

  // ---------------------------------------------------------------------
  // Decoded values and errors

  datatype NumberKind = Signed | Unsigned | Float | DecimalNumber

  /// A decoded JSON value. Dates and times keep their decoded integer fields
  /// (their text rendering is not modelled); a double keeps its 64 raw bits;
  /// a decimal keeps the eight bytes its decoder would read.
  datatype Value =
    | Null
    | True
    | False
    | Number(text: string, kind: NumberKind)
    | DoubleBits(bits: nat)
    | String(bytes: seq<byte>)
    | Array(items: seq<Value>)
    | Object(members: seq<Member>)
    | Date(year: nat, month: nat, day: nat)
    | Time(hour: nat, minute: nat, second: nat, micro: nat)
    | DateTime(year: nat, month: nat, day: nat, hour: nat, minute: nat, second: nat, micro: nat)
    | Decimal(raw: seq<byte>)
    | Blob(bytes: seq<byte>)
    | Bit(bytes: seq<byte>)
    | Opaque(bytes: seq<byte>)

  /// An object member, in stored order.
  datatype Member = Member(key: seq<byte>, value: Value)

  datatype Error =
    | InvalidJsonType(typ: byte)     // "invalid json type"
    | InvalidIntType(typ: byte)      // "invalid int type"
    | UnknownLiteral(literal: byte)  // "unknown literal value"
    | ElementOutOfRange              // "unable to decode element"
    | ObjectKeyOutOfRange            // "unable to decode object elements"
    | OutOfBounds                    // an index past the end of the input: a panic
    | InvalidDiffOp(op: byte)        // "invalid JSON diff operation"
    | DiffValue(path: seq<byte>, cause: Error)  // "cannot read JSON diff value for path"

  // ---------------------------------------------------------------------
  // Fixed-width and variable-length integers

  /// Bytes of a count, size or offset: 4 in a large document, 2 in a small.
  function Width(large: bool): nat
  {
    if large then 4 else 2
  }

  /// `readInt`: the little-endian integer of `Width(large)` bytes at `pos`
  /// and the position after it.
  function ReadInt(data: seq<byte>, pos: nat, large: bool): (r: Result<(nat, nat), Error>)
    ensures r.Ok? <==> pos + Width(large) <= |data|
    ensures r.Err? ==> r.error == OutOfBounds
    ensures r.Ok? ==>
              && r.value.1 == pos + Width(large)
              && r.value.0 == LittleEndian(data[pos..pos + Width(large)])
              && r.value.0 < Pow256(Width(large))
  {
    if large then
      if pos + 4 > |data| then Err(OutOfBounds)
      else
        var bs := data[pos..pos + 4];
        assert LittleEndian(bs) == bs[0] as int + 256 * (bs[1] as int + 256 * (bs[2] as int + 256 * (bs[3] as int))) by {
          assert bs[3..][1..] == [];
          assert LittleEndian(bs[3..]) == bs[3] as int;
          assert bs[2..][1..] == bs[3..];
          assert LittleEndian(bs[2..]) == bs[2] as int + 256 * LittleEndian(bs[3..]);
          assert bs[1..][1..] == bs[2..];
          assert LittleEndian(bs[1..]) == bs[1] as int + 256 * LittleEndian(bs[2..]);
        }
        Ok((data[pos] as int + (data[pos + 1] as int) * 0x100
          + (data[pos + 2] as int) * 0x1_0000 + (data[pos + 3] as int) * 0x100_0000, pos + 4))
    else
      if pos + 2 > |data| then Err(OutOfBounds)
      else
        var bs := data[pos..pos + 2];
        assert LittleEndian(bs) == bs[0] as int + 256 * (bs[1] as int) by {
          assert bs[1..][1..] == [];
        }
        Ok((data[pos] as int + (data[pos + 1] as int) * 0x100, pos + 2))
  }

  /// Bitwise OR of two non-negative integers.
  function BitOr(a: nat, b: nat): nat
    decreases a + b
  {
    if a == 0 then b
    else if b == 0 then a
    else (if a % 2 == 1 || b % 2 == 1 then 1 else 0) + 2 * BitOr(a / 2, b / 2)
  }

  /// OR keeps a value below `2^n` when both sides are below it.
  lemma {:induction false} BitOrBelow(a: nat, b: nat, n: nat)
    requires a < Pow2(n) && b < Pow2(n)
    ensures BitOr(a, b) < Pow2(n)
    decreases n
  {
    if a != 0 && b != 0 {
      BitOrBelow(a / 2, b / 2, n - 1);
    }
  }

  /// OR of bits that do not overlap is addition: `a` lies below bit `s`
  /// and `Pow2(s) * q` has no bit below it.
  lemma {:induction false} BitOrDisjoint(a: nat, q: nat, s: nat)
    requires a < Pow2(s)
    ensures BitOr(a, Pow2(s) * q) == a + Pow2(s) * q
    decreases s
  {
    var b := Pow2(s) * q;
    if a != 0 && q != 0 {
      var h := Pow2(s - 1);
      assert b == 2 * (h * q);
      assert b % 2 == 0 && b / 2 == h * q;
      BitOrDisjoint(a / 2, q, s - 1);
    }
  }

  /// `2^64`: a Go `int` is 64 bits wide.
  const Word: nat := 0x1_0000_0000_0000_0000

  lemma WordIsPow2()
    ensures Pow2(64) == Word && Pow256(8) == Word
  {
    Pow2Bytes(8);
  }

  lemma BitOrBelowWord(a: nat, b: nat)
    requires a < Word && b < Word
    ensures BitOr(a, b) < Word
  {
    WordIsPow2();
    BitOrBelow(a, b, 64);
  }

  /// `x << n` on the 64 bits of a Go `int`: `n` doublings, each dropping
  /// what passes bit 63.
  function ShiftLeft(x: nat, n: nat): (r: nat)
    requires x < Word
    ensures r < Word
    decreases n
  {
    if n == 0 then x else ShiftLeft((2 * x) % Word, n - 1)
  }

  /// `int(bb & 0x7f) << (7 * idx)`: the shift count `7 * idx` is a byte,
  /// and a shift of 64 or more leaves nothing.
  function ShiftedGroup(b: byte, idx: nat): (r: nat)
    ensures r < Word
  {
    var shift := (7 * idx) % 256;
    if shift < 64 then ShiftLeft(b as nat % 0x80, shift) else 0
  }

  /// A shift that loses nothing multiplies by `2^n`.
  lemma {:induction false} ShiftLeftExact(x: nat, n: nat)
    requires x * Pow2(n) < Word
    ensures x < Word && ShiftLeft(x, n) == x * Pow2(n)
    decreases n
  {
    if n > 0 {
      var p := Pow2(n - 1);
      Doubled(x, p);
      assert Pow2(n) == 2 * p;
      assert (2 * x) % Word == 2 * x;
      ShiftLeftExact(2 * x, n - 1);
      assert ShiftLeft(x, n) == ShiftLeft(2 * x, n - 1);
    }
  }

  lemma Doubled(x: nat, p: nat)
    requires p >= 1
    ensures x * (2 * p) == (2 * x) * p && 2 * x <= (2 * x) * p
  {
  }

  lemma {:induction false} ShiftLeftZero(n: nat)
    ensures ShiftLeft(0, n) == 0
  {
    if n > 0 {
      ShiftLeftZero(n - 1);
    }
  }

  /// Where the variable-length integer at `p` ends: just after the first
  /// byte whose high bit is clear; out of bounds if no such byte follows.
  function LengthEnd(data: seq<byte>, p: nat): (r: Result<nat, Error>)
    ensures r.Err? ==> r.error == OutOfBounds
    ensures r.Ok? ==>
              && p < r.value <= |data|
              && data[r.value - 1] < 0x80
              && forall k :: p <= k < r.value - 1 ==> data[k] >= 0x80
    decreases |data| - p
  {
    if p >= |data| then Err(OutOfBounds)
    else if data[p] < 0x80 then Ok(p + 1)
    else LengthEnd(data, p + 1)
  }

  /// The search fails exactly when no byte from `p` on has a clear high bit.
  lemma {:induction false} LengthEndFails(data: seq<byte>, p: nat)
    ensures LengthEnd(data, p).Err? <==> forall k :: p <= k < |data| ==> data[k] >= 0x80
    decreases |data| - p
  {
    if p < |data| && data[p] >= 0x80 {
      LengthEndFails(data, p + 1);
    }
  }

  /// Bytes with the high bit set only pass the search on.
  lemma {:induction false} ContinuationBytes(data: seq<byte>, p: nat, q: nat)
    requires p <= q <= |data|
    requires forall k :: p <= k < q ==> data[k] >= 0x80
    ensures LengthEnd(data, p) == LengthEnd(data, q)
    decreases q - p
  {
    if p < q {
      ContinuationBytes(data, p + 1, q);
    }
  }

  /// The 64 bits of Go's `length` once the bytes `bs` are read: the `k`-th
  /// byte's group is shifted by `7 * idx`, where the counter `idx` is a
  /// byte and so holds `k % 256`, and ORed in.
  function LengthBits(bs: seq<byte>): (r: nat)
    ensures r < Word
  {
    if bs == [] then 0
    else
      var k := |bs| - 1;
      BitOrBelowWord(LengthBits(bs[..k]), ShiftedGroup(bs[k], k % 256));
      BitOr(LengthBits(bs[..k]), ShiftedGroup(bs[k], k % 256))
  }

  /// One more byte ORs its group in at the next shift.
  lemma LengthBitsSnoc(bs: seq<byte>, b: byte)
    ensures LengthBits(bs + [b]) == BitOr(LengthBits(bs), ShiftedGroup(b, |bs| % 256))
  {
    assert (bs + [b])[..|bs|] == bs;
  }

  /// `readVariableLength`: seven bits per byte, least significant group
  /// first, up to and including the first byte whose high bit is clear,
  /// accumulated in a 64-bit Go `int`; the length and the position after
  /// it.
  function VarLength(data: seq<byte>, pos: nat): (r: Result<(int, nat), Error>)
    ensures r.Err? ==> r.error == OutOfBounds
    ensures r.Err? <==> LengthEnd(data, pos).Err?
    ensures r.Ok? ==> LengthEnd(data, pos) == Ok(r.value.1)
    ensures r.Ok? ==>
              && pos < r.value.1 <= |data|
              && data[r.value.1 - 1] < 0x80
              && forall k :: pos <= k < r.value.1 - 1 ==> data[k] >= 0x80
    ensures r.Ok? ==> -0x8000_0000_0000_0000 <= r.value.0 < 0x8000_0000_0000_0000
  {
    match LengthEnd(data, pos)
    case Err(e) => Err(e)
    case Ok(end) => Ok((Int64(LengthBits(data[pos..end])), end))
  }

  /// A length below 128 is its one byte.
  lemma OneByteLength(data: seq<byte>, p: nat)
    requires p < |data| && data[p] < 0x80
    ensures VarLength(data, p) == Ok((data[p] as int, p + 1))
  {
    assert data[p..p + 1] == [data[p]];
    BitsAreGroups([data[p]]);
    assert SevenBitGroups([data[p]]) == Group(data[p], 0) + SevenBitGroups([]);
  }

  /// `int(length)`: a 64-bit word read as a two's-complement `int`.
  function Int64(bits: nat): (i: int)
    requires bits < Word
    ensures -0x8000_0000_0000_0000 <= i < 0x8000_0000_0000_0000
    ensures i == bits || i == bits - Word
  {
    if bits >= 0x8000_0000_0000_0000 then bits - Word else bits
  }

  /// `128^n`.
  function Pow128(n: nat): (p: nat)
    ensures p >= 1
  {
    if n == 0 then 1 else 0x80 * Pow128(n - 1)
  }

  lemma {:induction false} Pow128IsPow2(n: nat)
    ensures Pow128(n) == Pow2(7 * n)
  {
    if n > 0 {
      Pow128IsPow2(n - 1);
      Pow2Add(7 * (n - 1), 7);
      assert 7 * n == 7 * (n - 1) + 7;
      assert Pow2(7) == 0x80;
    }
  }

  lemma {:induction false} Pow128Monotone(a: nat, b: nat)
    requires a <= b
    ensures Pow128(a) <= Pow128(b)
    decreases b
  {
    if a < b {
      Pow128Monotone(a, b - 1);
    }
  }

  /// The `idx`-th seven-bit group of a variable-length integer in place,
  /// without any bound: `128^idx * (b & 0x7f)`.
  function Group(b: byte, idx: nat): nat
  {
    Pow128(idx) * (b as nat % 0x80)
  }

  /// The value of the seven-bit groups of `bs`, least significant first.
  function SevenBitGroups(bs: seq<byte>): nat
  {
    if bs == [] then 0 else Group(bs[|bs| - 1], |bs| - 1) + SevenBitGroups(bs[..|bs| - 1])
  }

  /// A length of at most nine bytes, 63 bits, is the plain sum of its
  /// seven-bit groups `(b_i & 0x7f) << 7i` over the bytes it spans.
  lemma VarLengthIsGroupSum(data: seq<byte>, pos: nat)
    requires VarLength(data, pos).Ok? && VarLength(data, pos).value.1 <= pos + 9
    ensures VarLength(data, pos).value.0 == SevenBitGroups(data[pos..VarLength(data, pos).value.1])
  {
    var end := LengthEnd(data, pos).value;
    var bs := data[pos..end];
    BitsAreGroups(bs);
    Pow128Monotone(|bs|, 9);
    assert Pow128(9) == 0x8000_0000_0000_0000;
  }

  /// How MySQL writes a length: seven bits per byte, least significant
  /// group first, the high bit set on every byte but the last.
  function LengthBytes(n: nat): (bs: seq<byte>)
    ensures |bs| >= 1
    decreases n
  {
    if n < 0x80 then [n as byte]
    else [(n % 0x80 + 0x80) as byte] + LengthBytes(n / 0x80)
  }

  /// A byte in front adds its group below those of the bytes after it.
  lemma {:induction false} SevenBitGroupsCons(b: byte, bs: seq<byte>)
    ensures SevenBitGroups([b] + bs) == b as nat % 0x80 + 0x80 * SevenBitGroups(bs)
    decreases |bs|
  {
    if bs != [] {
      var k := |bs| - 1;
      var init := bs[..k];
      assert ([b] + bs)[..|bs|] == [b] + init;
      SevenBitGroupsCons(b, init);
      assert Group(bs[k], k + 1) == 0x80 * Group(bs[k], k);
    }
  }

  /// The groups of an encoded length add up to it.
  lemma {:induction false} LengthBytesGroups(n: nat)
    ensures SevenBitGroups(LengthBytes(n)) == n
    decreases n
  {
    if n < 0x80 {
      assert SevenBitGroups([n as byte]) == Group(n as byte, 0) + SevenBitGroups([]);
    } else {
      LengthBytesGroups(n / 0x80);
      SevenBitGroupsCons((n % 0x80 + 0x80) as byte, LengthBytes(n / 0x80));
    }
  }

  /// A length below `128^m` takes at most `m` bytes (one at least).
  lemma {:induction false} LengthBytesSize(n: nat, m: nat)
    requires 1 <= m && n < Pow128(m)
    ensures |LengthBytes(n)| <= m
    decreases n
  {
    if n >= 0x80 {
      LengthBytesSize(n / 0x80, m - 1);
    }
  }

  /// The search for the end of an encoded length stops after its last byte.
  lemma {:induction false} LengthBytesEnd(n: nat, data: seq<byte>, p: nat)
    requires p + |LengthBytes(n)| <= |data| && data[p..p + |LengthBytes(n)|] == LengthBytes(n)
    ensures LengthEnd(data, p) == Ok(p + |LengthBytes(n)|)
    decreases n
  {
    var bs := LengthBytes(n);
    assert data[p] == bs[0];
    if n >= 0x80 {
      var tail := LengthBytes(n / 0x80);
      assert bs == [(n % 0x80 + 0x80) as byte] + tail;
      assert data[p + 1..p + 1 + |tail|] == bs[1..] == tail;
      LengthBytesEnd(n / 0x80, data, p + 1);
    }
  }

  /// Any length below 2^63, written the way MySQL writes it, reads back.
  lemma LengthRoundTrip(n: nat, data: seq<byte>, p: nat)
    requires n < 0x8000_0000_0000_0000
    requires p + |LengthBytes(n)| <= |data| && data[p..p + |LengthBytes(n)|] == LengthBytes(n)
    ensures VarLength(data, p) == Ok((n as int, p + |LengthBytes(n)|))
  {
    assert Pow128(9) == 0x8000_0000_0000_0000;
    LengthBytesSize(n, 9);
    LengthBytesEnd(n, data, p);
    VarLengthIsGroupSum(data, p);
    LengthBytesGroups(n);
  }

  /// Up to nine groups, none reaching bit 63: each lands above the bits
  /// read before it, so OR adds it.
  lemma {:induction false} BitsAreGroups(bs: seq<byte>)
    requires |bs| <= 9
    ensures LengthBits(bs) == SevenBitGroups(bs) < Pow128(|bs|)
  {
    if bs != [] {
      var k := |bs| - 1;
      var init := bs[..k];
      var acc := LengthBits(init);
      var g := bs[k] as nat % 0x80;
      BitsAreGroups(init);
      assert k % 256 == k;
      assert LengthBits(bs) == BitOr(acc, ShiftedGroup(bs[k], k));
      GroupStep(acc, k, bs[k]);
      assert SevenBitGroups(bs) == Group(bs[k], k) + SevenBitGroups(init);
    }
  }

  /// One group below bit 63: the shift keeps all its bits, and OR adds it
  /// to bits that all lie below it.
  lemma GroupStep(acc: nat, idx: nat, b: byte)
    requires idx <= 8 && acc < Pow128(idx)
    ensures var bits := acc + Pow128(idx) * (b as nat % 0x80);
      && BitOr(acc, ShiftedGroup(b, idx)) == bits
      && bits < Pow128(idx + 1) && bits < Word
  {
    var g := b as nat % 0x80;
    var w := Pow128(idx);
    var v := w * g;
    Pow128IsPow2(idx);
    assert v == Pow2(7 * idx) * g;
    assert Pow128(idx + 1) == 0x80 * w;
    GroupBelow(g, w);
    assert acc + v < Pow128(idx + 1);
    Pow128Monotone(idx + 1, 9);
    assert Pow128(9) < Word;
    ShiftedGroupExact(b, idx, v);
    BitOrDisjoint(acc, g, 7 * idx);
  }

  lemma GroupBelow(g: nat, w: nat)
    requires g < 0x80
    ensures w * g <= 0x80 * w - w
  {
  }

  /// A group whose shifted value fits in 64 bits keeps it whole.
  lemma ShiftedGroupExact(b: byte, idx: nat, v: nat)
    requires 7 * idx < 64 && v == Pow2(7 * idx) * (b as nat % 0x80) && v < Word
    ensures ShiftedGroup(b, idx) == v
  {
    var shift := 7 * idx;
    assert shift % 256 == shift;
    var g := b as nat % 0x80;
    assert g * Pow2(shift) == v;
    ShiftLeftExact(g, shift);
  }

  /// Groups with no bits of their own, and groups shifted by 64 or more,
  /// leave nothing in the length.
  lemma {:induction false} DroppedGroups(bs: seq<byte>)
    requires forall k :: 0 <= k < |bs| ==> bs[k] % 0x80 == 0 || (7 * (k % 256)) % 256 >= 64
    ensures LengthBits(bs) == 0
  {
    if bs != [] {
      var k := |bs| - 1;
      DroppedGroups(bs[..k]);
      ShiftLeftZero((7 * (k % 256)) % 256);
      assert ShiftedGroup(bs[k], k % 256) == 0;
    }
  }

  /// Eleven length bytes whose last group lands at bit 70: the 64-bit
  /// shift drops it, so the length reads as 0.
  lemma LongLengthReadsZero()
    ensures VarLength([StringTag, 0x80, 0x80, 0x80, 0x80, 0x80, 0x80, 0x80, 0x80, 0x80, 0x80, 0x02], 1)
         == Ok((0, 12))
  {
    var d: seq<byte> := [StringTag, 0x80, 0x80, 0x80, 0x80, 0x80, 0x80, 0x80, 0x80, 0x80, 0x80, 0x02];
    ContinuationBytes(d, 1, 11);
    assert LengthEnd(d, 11) == Ok(12);
    var bs := d[1..12];
    assert forall k :: 0 <= k < 10 ==> bs[k] == 0x80;
    assert (7 * (10 % 256)) % 256 == 70;
    DroppedGroups(bs);
    assert Int64(0) == 0;
  }

  /// The same eleven bytes as a string's size: Go reads an empty string
  /// where the plain sum of the groups would run past the end.
  lemma LongLengthDropsHighGroups()
    ensures ParseJson([StringTag, 0x80, 0x80, 0x80, 0x80, 0x80, 0x80, 0x80, 0x80, 0x80, 0x80, 0x02], [])
         == Ok(String([]))
  {
    var d: seq<byte> := [StringTag, 0x80, 0x80, 0x80, 0x80, 0x80, 0x80, 0x80, 0x80, 0x80, 0x80, 0x02];
    LongLengthReadsZero();
    assert d + [] == d && d[12..12] == [];
    assert StringNode(d, [], 1) == Ok(String([]));
  }

  // ---------------------------------------------------------------------
  // Scalars: integers, literals, strings, opaque values

  /// `binaryIntSizes`; 0 for a tag the table does not hold.
  function IntSize(typ: byte): nat
  {
    if typ == Int16Tag || typ == Uint16Tag then 2
    else if typ == Int32Tag || typ == Uint32Tag then 4
    else if typ == Int64Tag || typ == Uint64Tag || typ == DoubleTag then 8
    else 0
  }

  /// The two's-complement reading of an unsigned `size`-byte value
  /// (`int16(val)`, `int32(val)`, `int64(val)`).
  function ToSigned(v: nat, size: nat): (i: int)
    requires 0 < size && v < Pow256(size)
    ensures -(SignBit(size) as int) <= i < SignBit(size)
    ensures i == v || i == v - Pow256(size)
  {
    if v >= SignBit(size) then v - Pow256(size) else v
  }

  /// The weight of the sign bit of a `size`-byte integer: half of `256^size`.
  function SignBit(size: nat): (h: nat)
    requires 0 < size
    ensures Pow256(size) == 2 * h
  {
    0x80 * Pow256(size - 1)
  }

  function IsSignedTag(typ: byte): bool
  {
    typ == Int16Tag || typ == Int32Tag || typ == Int64Tag
  }

  function IsUnsignedTag(typ: byte): bool
  {
    typ == Uint16Tag || typ == Uint32Tag || typ == Uint64Tag
  }

  /// `binparserInt`: the `IntSize(typ)` little-endian bytes at `pos`,
  /// rendered with the width and signedness of `typ`.
  function IntNode(typ: byte, data: seq<byte>, pos: nat): (r: Result<Value, Error>)
  {
    var size := IntSize(typ);
    if size == 0 then Err(InvalidIntType(typ))
    else if pos + size > |data| then Err(OutOfBounds)
    else
      var v := LittleEndian(data[pos..pos + size]);
      if IsSignedTag(typ) then Ok(Number(IntToDecimal(ToSigned(v, size)), Signed))
      else if IsUnsignedTag(typ) then Ok(Number(IntToDecimal(v), Unsigned))
      else if typ == DoubleTag then Ok(DoubleBits(v))
      else Err(InvalidIntType(typ))
  }

  /// A decoded integer's text reads back as the value of its bytes: the
  /// two's-complement value for the signed tags, the plain one otherwise.
  lemma IntNodeReadsBack(typ: byte, data: seq<byte>, pos: nat)
    requires IsSignedTag(typ) || IsUnsignedTag(typ)
    requires pos + IntSize(typ) <= |data|
    ensures IntNode(typ, data, pos).Ok?
    ensures var v := LittleEndian(data[pos..pos + IntSize(typ)]);
      DecimalValue(IntNode(typ, data, pos).value.text)
        == Some(if IsSignedTag(typ) then ToSigned(v, IntSize(typ)) else v)
  {
    var v := LittleEndian(data[pos..pos + IntSize(typ)]);
    if IsSignedTag(typ) {
      DecimalRoundTrip(ToSigned(v, IntSize(typ)));
    } else {
      DecimalRoundTrip(v);
    }
  }

  /// An int16 of bytes FF FF is rendered "-1".
  lemma Int16AllOnesIsMinusOne()
    ensures IntNode(Int16Tag, [0xFF, 0xFF], 0) == Ok(Number("-1", Signed))
  {
    var bs: seq<byte> := [0xFF, 0xFF];
    assert bs[0..2] == bs;
    assert bs[1..][1..] == [];
    assert LittleEndian(bs) == 0xFFFF;
    assert Pow256(2) == 0x1_0000;
    assert ToSigned(0xFFFF, 2) == -1;
    assert Digits(1) == "1";
    assert IntToDecimal(-1) == "-1";
  }

  /// `binparserLiteral`.
  function LiteralNode(data: seq<byte>, pos: nat): (r: Result<Value, Error>)
  {
    if pos >= |data| then Err(OutOfBounds)
    else if data[pos] == NullLiteral then Ok(Null)
    else if data[pos] == TrueLiteral then Ok(True)
    else if data[pos] == FalseLiteral then Ok(False)
    else Err(UnknownLiteral(data[pos]))
  }

  /// The byte a literal is stored as.
  function LiteralByte(v: Value): byte
    requires v.Null? || v.True? || v.False?
  {
    if v.Null? then NullLiteral else if v.True? then TrueLiteral else FalseLiteral
  }

  /// Literals decode from their stored byte and from nothing else; any
  /// other byte is an error.
  lemma LiteralRoundTrip(data: seq<byte>, pos: nat, v: Value)
    requires v.Null? || v.True? || v.False?
    requires pos < |data|
    ensures LiteralNode(data, pos) == Ok(v) <==> data[pos] == LiteralByte(v)
    ensures LiteralNode(data, pos).Err? <==> data[pos] > FalseLiteral
  {
  }

  /// `binparserString`: a variable-length size, then that many bytes. The
  /// bytes are a slice expression, so they may run on into `spare`; a
  /// negative size or one past the capacity makes the slice panic.
  function StringNode(data: seq<byte>, spare: seq<byte>, pos: nat): (r: Result<Value, Error>)
    ensures r.Err? ==> r.error == OutOfBounds
    ensures r.Ok? <==>
      && VarLength(data, pos).Ok?
      && 0 <= VarLength(data, pos).value.0
      && VarLength(data, pos).value.1 + VarLength(data, pos).value.0 <= |data| + |spare|
    ensures r.Ok? ==>
      var (size, start) := VarLength(data, pos).value;
      r.value == String((data + spare)[start..start + size])
  {
    match VarLength(data, pos)
    case Err(e) => Err(e)
    case Ok((size, start)) =>
      if size < 0 || start + size > |data| + |spare| then Err(OutOfBounds)
      else Ok(String((data + spare)[start..start + size]))
  }

  /// How MySQL writes a string: its tag, its length and its bytes.
  function EncodeString(s: seq<byte>): (bs: seq<byte>)
    ensures |bs| == 1 + |LengthBytes(|s|)| + |s|
  {
    [StringTag] + LengthBytes(|s|) + s
  }

  /// Any string shorter than 2^63 bytes, written as MySQL writes it,
  /// decodes to itself, whatever follows it.
  lemma StringRoundTrip(s: seq<byte>, rest: seq<byte>, spare: seq<byte>)
    requires |s| < 0x8000_0000_0000_0000
    ensures ParseJson(EncodeString(s) + rest, spare) == Ok(String(s))
  {
    var start := 1 + |LengthBytes(|s|)|;
    EncodedStringLength(s, rest);
    EncodedStringBytes(s, rest, spare);
    StringAt(EncodeString(s) + rest, spare, s, start);
  }

  lemma EncodedStringLength(s: seq<byte>, rest: seq<byte>)
    requires |s| < 0x8000_0000_0000_0000
    ensures VarLength(EncodeString(s) + rest, 1) == Ok((|s| as int, 1 + |LengthBytes(|s|)|))
  {
    var size := LengthBytes(|s|);
    var data := EncodeString(s) + rest;
    assert data[1..1 + |size|] == size by {
      Middle([StringTag], size, s + rest);
      assert data == [StringTag] + size + (s + rest);
    }
    LengthRoundTrip(|s|, data, 1);
  }

  lemma EncodedStringBytes(s: seq<byte>, rest: seq<byte>, spare: seq<byte>)
    ensures var start := 1 + |LengthBytes(|s|)|;
      (EncodeString(s) + rest + spare)[start..start + |s|] == s
  {
    var prefix := [StringTag] + LengthBytes(|s|);
    assert EncodeString(s) + rest + spare == prefix + s + (rest + spare);
    Middle(prefix, s, rest + spare);
  }

  /// The middle part of a concatenation.
  lemma Middle<T>(a: seq<T>, b: seq<T>, c: seq<T>)
    ensures (a + b + c)[|a|..|a| + |b|] == b
  {
    assert (a + b + c)[..|a| + |b|] == a + b;
  }

  lemma StringAt(data: seq<byte>, spare: seq<byte>, s: seq<byte>, start: nat)
    requires 0 < |data| && data[0] == StringTag
    requires VarLength(data, 1) == Ok((|s| as int, start))
    requires start + |s| <= |data| + |spare| && (data + spare)[start..start + |s|] == s
    ensures ParseJson(data, spare) == Ok(String(s))
  {
    assert StringNode(data, spare, 1) == Ok(String(s));
  }

  function IsDateTimeType(t: byte): bool
  {
    t == TypeDateTime2 || t == TypeDateTime || t == TypeTimestamp2 || t == TypeTimestamp
  }

  function IsBlobType(t: byte): bool
  {
    t == TypeVarchar || t == TypeVarString || t == TypeString || t == TypeBlob
    || t == TypeTinyBlob || t == TypeMediumBlob || t == TypeLongBlob
  }

  /// The bit fields of a packed date: a 17-bit year*13+month at bit 22 and
  /// a 5-bit day at bit 17 of the value above the 24 low bits.
  function DecodeDate(raw: nat): Value
  {
    var value := raw / 0x100_0000;
    var yearMonth := (value / 0x40_0000) % 0x2_0000;
    Date(yearMonth / 13, yearMonth % 13, (value / 0x2_0000) % 0x20)
  }

  /// A packed time: a 10-bit hour at bit 12, 6-bit minute at 6, 6-bit
  /// second at 0, and the microseconds in the 24 low bits of the raw word.
  function DecodeTime(raw: nat): Value
  {
    var value := raw / 0x100_0000;
    Time((value / 0x1000) % 0x400, (value / 0x40) % 0x40, value % 0x40, raw % 0x100_0000)
  }

  /// A packed datetime: the date fields, then a 5-bit hour at bit 12.
  function DecodeDateTime(raw: nat): Value
  {
    var value := raw / 0x100_0000;
    var yearMonth := (value / 0x40_0000) % 0x2_0000;
    DateTime(yearMonth / 13, yearMonth % 13, (value / 0x2_0000) % 0x20,
      (value / 0x1000) % 0x20, (value / 0x40) % 0x40, value % 0x40, raw % 0x100_0000)
  }

  /// The opaque column types whose value is the eight bytes at 3..11.
  predicate IsFixedOpaque(t: byte)
  {
    t == TypeDate || t == TypeTime2 || t == TypeTime || IsDateTimeType(t)
    || t == TypeDecimal || t == TypeNewDecimal
  }

  /// `binparserOpaque`: the MySQL column type byte at `pos`; dates, times
  /// and decimals slice the eight bytes at 3..11, which may run on into
  /// `spare`; every other type keeps the bytes after the type byte.
  function OpaqueNode(data: seq<byte>, spare: seq<byte>, pos: nat): (r: Result<Value, Error>)
    ensures r.Err? ==> r.error == OutOfBounds
    ensures r.Err? <==> pos >= |data| || (IsFixedOpaque(data[pos]) && |data| + |spare| < 11)
    ensures r.Ok? && IsFixedOpaque(data[pos]) ==>
      var word := (data + spare)[3..11];
      var raw := LittleEndian(word);
      r.value == (if data[pos] == TypeDate then DecodeDate(raw)
                  else if data[pos] == TypeTime2 || data[pos] == TypeTime then DecodeTime(raw)
                  else if IsDateTimeType(data[pos]) then DecodeDateTime(raw)
                  else Decimal(word))
    ensures r.Ok? && !IsFixedOpaque(data[pos]) ==>
      (r.value.Blob? <==> IsBlobType(data[pos])) && (r.value.Bit? <==> data[pos] == TypeBit)
      && (r.value.Blob? || r.value.Bit? || r.value.Opaque?) && r.value.bytes == data[pos + 1..]
  {
    if pos >= |data| then Err(OutOfBounds)
    else
      var t := data[pos];
      if IsFixedOpaque(t) then
        if |data| + |spare| < 11 then Err(OutOfBounds)
        else
          var word := (data + spare)[3..11];
          var raw := LittleEndian(word);
          if t == TypeDate then Ok(DecodeDate(raw))
          else if t == TypeTime2 || t == TypeTime then Ok(DecodeTime(raw))
          else if IsDateTimeType(t) then Ok(DecodeDateTime(raw))
          else Ok(Decimal(word))
      else if IsBlobType(t) then Ok(Blob(data[pos + 1..]))
      else if t == TypeBit then Ok(Bit(data[pos + 1..]))
      else Ok(Opaque(data[pos + 1..]))
  }

  /// The packed words MySQL stores: `year*13+month` at bit 46, the day at
  /// bit 41, and the time of day below, over 24 bits of microseconds.
  function PackDate(year: nat, month: nat, day: nat): nat
  {
    ((year * 13 + month) * 0x20 + day) * 0x2_0000 * 0x100_0000
  }

  function PackTime(hour: nat, minute: nat, second: nat, micro: nat): nat
  {
    ((hour * 0x40 + minute) * 0x40 + second) * 0x100_0000 + micro
  }

  function PackDateTime(year: nat, month: nat, day: nat, hour: nat, minute: nat, second: nat, micro: nat): nat
  {
    ((((year * 13 + month) * 0x20 + day) * 0x20 + hour) * 0x1000 + minute * 0x40 + second) * 0x100_0000 + micro
  }

  /// Dividing `hi * c + lo` by `c` recovers both parts.
  lemma Split(hi: nat, lo: nat, c: nat)
    requires lo < c
    ensures (hi * c + lo) / c == hi && (hi * c + lo) % c == lo
  {
    var n := hi * c + lo;
    var q, r := n / c, n % c;
    assert n == q * c + r;
    if q > hi {
      assert q * c >= (hi + 1) * c by { MulMonotone(hi + 1, q, c); }
    } else if q < hi {
      assert (q + 1) * c <= hi * c by { MulMonotone(q + 1, hi, c); }
    }
  }

  lemma MulMonotone(a: nat, b: nat, c: nat)
    requires a <= b
    ensures a * c <= b * c
  {
  }

  /// Decoding a packed date gives back its fields when each is in range.
  lemma DateRoundTrip(year: nat, month: nat, day: nat)
    requires month < 13 && day < 0x20 && year * 13 + month < 0x2_0000
    ensures DecodeDate(PackDate(year, month, day)) == Date(year, month, day)
  {
    var ym := year * 13 + month;
    var x := ym * 0x20 + day;
    var value := x * 0x2_0000;
    Split(value, 0, 0x100_0000);
    assert value == ym * 0x40_0000 + day * 0x2_0000;
    Split(ym, day * 0x2_0000, 0x40_0000);
    Split(0, ym, 0x2_0000);
    Split(year, month, 13);
    Split(x, 0, 0x2_0000);
    Split(ym, day, 0x20);
  }

  lemma TimeRoundTrip(hour: nat, minute: nat, second: nat, micro: nat)
    requires hour < 0x400 && minute < 0x40 && second < 0x40 && micro < 0x100_0000
    ensures DecodeTime(PackTime(hour, minute, second, micro)) == Time(hour, minute, second, micro)
  {
    var hm := hour * 0x40 + minute;
    var value := hm * 0x40 + second;
    Split(value, micro, 0x100_0000);
    assert value == hour * 0x1000 + (minute * 0x40 + second);
    Split(hour, minute * 0x40 + second, 0x1000);
    Split(0, hour, 0x400);
    Split(hm, second, 0x40);
    Split(hour, minute, 0x40);
  }

  lemma DateTimeRoundTrip(year: nat, month: nat, day: nat, hour: nat, minute: nat, second: nat, micro: nat)
    requires month < 13 && day < 0x20 && year * 13 + month < 0x2_0000
    requires hour < 0x20 && minute < 0x40 && second < 0x40 && micro < 0x100_0000
    ensures DecodeDateTime(PackDateTime(year, month, day, hour, minute, second, micro))
         == DateTime(year, month, day, hour, minute, second, micro)
  {
    var ym := year * 13 + month;
    var x := ym * 0x20 + day;
    var h := x * 0x20 + hour;
    var low := minute * 0x40 + second;
    var value := h * 0x1000 + low;
    Split(value, micro, 0x100_0000);
    assert value == ym * 0x40_0000 + (day * 0x2_0000 + hour * 0x1000 + low);
    Split(ym, day * 0x2_0000 + hour * 0x1000 + low, 0x40_0000);
    Split(0, ym, 0x2_0000);
    Split(year, month, 13);
    assert value == x * 0x2_0000 + (hour * 0x1000 + low);
    Split(x, hour * 0x1000 + low, 0x2_0000);
    Split(ym, day, 0x20);
    Split(h, low, 0x1000);
    Split(x, hour, 0x20);
    Split(minute * 0x40 + second, 0, 1);
    Split(hour * 0x40 + minute, second, 0x40);
    assert value / 0x40 == (h * 0x40 + minute) by {
      assert value == (h * 0x40 + minute) * 0x40 + second;
      Split(h * 0x40 + minute, second, 0x40);
    }
    Split(h, minute, 0x40);
  }

  /// An opaque value written by MySQL: the tag, the column type, the length
  /// 8 and the little-endian word; the decoder reads the word back.
  lemma {:induction false} OpaqueWord(t: byte, raw: nat)
    requires raw < Word
    ensures var data := [OpaqueTag, t, 8] + ToLittleEndian(raw, 8);
      |data| == 11 && data + [] == data && LittleEndian(data[3..11]) == raw
  {
    var data := [OpaqueTag, t, 8] + ToLittleEndian(raw, 8);
    assert data + [] == data;
    assert data[3..11] == ToLittleEndian(raw, 8);
    assert Pow256(8) == Word;
    LittleEndianRoundTrip(raw, 8);
  }

  /// A packed date stored as an opaque value decodes to its fields.
  lemma OpaqueDateRoundTrip(year: nat, month: nat, day: nat)
    requires month < 13 && day < 0x20 && year * 13 + month < 0x2_0000
    ensures OpaqueNode([OpaqueTag, TypeDate, 8] + ToLittleEndian(PackDate(year, month, day), 8), [], 1)
         == Ok(Date(year, month, day))
  {
    OpaqueWord(TypeDate, PackDate(year, month, day));
    DateRoundTrip(year, month, day);
  }

  /// A packed datetime stored under any of the four datetime column types
  /// decodes to its fields.
  lemma OpaqueDateTimeRoundTrip(t: byte, year: nat, month: nat, day: nat, hour: nat, minute: nat, second: nat, micro: nat)
    requires IsDateTimeType(t)
    requires month < 13 && day < 0x20 && year * 13 + month < 0x2_0000
    requires hour < 0x20 && minute < 0x40 && second < 0x40 && micro < 0x100_0000
    ensures OpaqueNode([OpaqueTag, t, 8] + ToLittleEndian(PackDateTime(year, month, day, hour, minute, second, micro), 8), [], 1)
         == Ok(DateTime(year, month, day, hour, minute, second, micro))
  {
    OpaqueWord(t, PackDateTime(year, month, day, hour, minute, second, micro));
    DateTimeRoundTrip(year, month, day, hour, minute, second, micro);
  }

  // ---------------------------------------------------------------------
  // Nodes, elements, arrays and objects

  /// `isInline`: literals and 16-bit integers always sit in the value
  /// entry; 32-bit integers do too in a large document.
  function IsInline(typ: byte, large: bool): (b: bool)
    ensures b <==> (typ == LiteralTag
                    || ((IsSignedTag(typ) || IsUnsignedTag(typ)) && IntSize(typ) <= Width(large)))
  {
    typ == LiteralTag || typ == Int16Tag || typ == Uint16Tag
    || (large && (typ == Int32Tag || typ == Uint32Tag))
  }

  /// A tag with a parser: 0..12 and 15.
  function IsKnownTag(typ: byte): bool
  {
    typ <= StringTag || typ == OpaqueTag
  }

  /// Every "invalid json type" error names a tag without a parser.
  predicate TagErrorsUnknown<T>(r: Result<T, Error>)
  {
    r.Err? && r.error.InvalidJsonType? ==> !IsKnownTag(r.error.typ)
  }

  /// Containers parse their children on the same bytes, so they rank above
  /// every other node in the termination order.
  function NodeRank(typ: byte): nat
  {
    if typ <= LargeArray then 4 else 0
  }

  /// The four container tags: objects and arrays, small and large.
  const Containers: set<byte> := {SmallObject, LargeObject, SmallArray, LargeArray}

  /// The containers open on one document once a node of type `typ` is
  /// opened on it as well.
  function Enter(entered: set<byte>, typ: byte): (e: set<byte>)
    ensures e == if typ in Containers then entered + {typ} else entered
  {
    if typ <= LargeArray then entered + {typ} else entered
  }

  /// `binparserNode`: dispatch on the type tag. `entered` holds the
  /// container types whose nodes are open on this same `data`, this one
  /// included.
  function Node(typ: byte, data: seq<byte>, spare: seq<byte>, pos: nat, entered: set<byte>): (r: Result<Value, Error>)
    ensures r == Err(InvalidJsonType(typ)) <==> !IsKnownTag(typ)
    ensures TagErrorsUnknown(r)
    decreases |data|, Containers - entered, NodeRank(typ), 0
  {
    if typ == SmallObject || typ == LargeObject then ObjectNode(typ, data, spare, pos, entered)
    else if typ == SmallArray || typ == LargeArray then ArrayNode(typ, data, spare, pos, entered)
    else if typ == LiteralTag then LiteralNode(data, pos)
    else if Int16Tag <= typ <= DoubleTag then IntNode(typ, data, pos)
    else if typ == StringTag then StringNode(data, spare, pos)
    else if typ == OpaqueTag then OpaqueNode(data, spare, pos)
    else Err(InvalidJsonType(typ))
  }

  /// `binparserElement`: one value entry of an array or object, a type
  /// byte and `Width(large)` bytes holding either the value itself or the
  /// offset of the value in `data`; returns the value and the next entry.
  /// An offset of 0 names `data` itself: a container type already open on
  /// `data` there is rejected, where Go would call itself again on the
  /// same arguments for ever.
  function Element(data: seq<byte>, spare: seq<byte>, pos: nat, large: bool, entered: set<byte>): (r: Result<(Value, nat), Error>)
    ensures r.Ok? ==> r.value.1 == pos + 1 + Width(large)
    ensures TagErrorsUnknown(r)
    decreases |data|, Containers - entered, 1, 0
  {
    if pos >= |data| then Err(OutOfBounds)
    else
      var typ := data[pos];
      if IsInline(typ, large) then
        match Node(typ, data, spare, pos + 1, entered)
        case Err(e) => Err(e)
        case Ok(v) => Ok((v, pos + 1 + Width(large)))
      else
        match ReadInt(data, pos + 1, large)
        case Err(e) => Err(e)
        case Ok((offset, next)) =>
          if offset >= |data| || (offset == 0 && typ in entered) then Err(ElementOutOfRange)
          else
            match Node(typ, data[offset..], spare, 1, Enter(if offset == 0 then entered else {}, typ))
            case Err(e) => Err(e)
            case Ok(v) => Ok((v, next))
  }

  /// The `count` value entries starting at `pos`, in stored order.
  function Elements(data: seq<byte>, spare: seq<byte>, pos: nat, count: nat, large: bool, entered: set<byte>): (r: Result<seq<Value>, Error>)
    ensures r.Ok? ==> |r.value| == count
    ensures TagErrorsUnknown(r)
    decreases |data|, Containers - entered, 2, count
  {
    if count == 0 then Ok([])
    else
      match Element(data, spare, pos, large, entered)
      case Err(e) => Err(e)
      case Ok((v, next)) =>
        match Elements(data, spare, next, count - 1, large, entered)
        case Err(e) => Err(e)
        case Ok(rest) => Ok([v] + rest)
  }

  /// `binparserArray`: element count, byte size (unused), then the entries.
  function ArrayNode(typ: byte, data: seq<byte>, spare: seq<byte>, pos: nat, entered: set<byte>): (r: Result<Value, Error>)
    ensures r.Ok? ==> r.value.Array?
    ensures TagErrorsUnknown(r)
    decreases |data|, Containers - entered, 3, 0
  {
    var large := typ == LargeArray;
    match ReadInt(data, pos, large)
    case Err(e) => Err(e)
    case Ok((count, afterCount)) =>
      match ReadInt(data, afterCount, large)
      case Err(e) => Err(e)
      case Ok((_, entries)) =>
        match Elements(data, spare, entries, count, large, entered)
        case Err(e) => Err(e)
        case Ok(items) => Ok(Array(items))
  }

  /// One key entry: the key's offset, its 16-bit length, and the key bytes
  /// the two point at (offsets count from the byte after the type tag).
  function KeyEntry(data: seq<byte>, pos: nat, large: bool): (r: Result<(seq<byte>, nat), Error>)
    ensures r.Ok? ==> r.value.1 == pos + Width(large) + 2
    ensures r.Err? ==> r.error == OutOfBounds || r.error == ObjectKeyOutOfRange
  {
    match ReadInt(data, pos, large)
    case Err(e) => Err(e)
    case Ok((keyOffset, afterOffset)) =>
      match ReadInt(data, afterOffset, false)
      case Err(e) => Err(e)
      case Ok((keyLength, next)) =>
        var start := keyOffset + 1;
        if start >= |data| || start + keyLength > |data| then Err(ObjectKeyOutOfRange)
        else Ok((data[start..start + keyLength], next))
  }

  /// The `count` key entries starting at `pos`, in stored order; the
  /// first bad entry is the error.
  function Keys(data: seq<byte>, pos: nat, count: nat, large: bool): (r: Result<(seq<seq<byte>>, nat), Error>)
    ensures r.Ok? ==> |r.value.0| == count && r.value.1 == pos + count * (Width(large) + 2)
    ensures r.Err? ==> r.error == OutOfBounds || r.error == ObjectKeyOutOfRange
    decreases count
  {
    if count == 0 then Ok(([], pos))
    else
      match KeyEntry(data, pos, large)
      case Err(e) => Err(e)
      case Ok((key, next)) =>
        match Keys(data, next, count - 1, large)
        case Err(e) => Err(e)
        case Ok((rest, end)) => Ok(([key] + rest, end))
  }

  function Zip(keys: seq<seq<byte>>, values: seq<Value>): (ms: seq<Member>)
    requires |keys| == |values|
    ensures |ms| == |keys| && forall i :: 0 <= i < |ms| ==> ms[i] == Member(keys[i], values[i])
  {
    if keys == [] then [] else [Member(keys[0], values[0])] + Zip(keys[1..], values[1..])
  }

  /// `binparserObject`: element count, byte size (unused), all key
  /// entries, then all value entries; members pair them up in order.
  function ObjectNode(typ: byte, data: seq<byte>, spare: seq<byte>, pos: nat, entered: set<byte>): (r: Result<Value, Error>)
    ensures r.Ok? ==> r.value.Object?
    ensures TagErrorsUnknown(r)
    decreases |data|, Containers - entered, 3, 0
  {
    var large := typ == LargeObject;
    match ReadInt(data, pos, large)
    case Err(e) => Err(e)
    case Ok((count, afterCount)) =>
      match ReadInt(data, afterCount, large)
      case Err(e) => Err(e)
      case Ok((_, entries)) =>
        match Keys(data, entries, count, large)
        case Err(e) => Err(e)
        case Ok((keys, valueEntries)) =>
          match Elements(data, spare, valueEntries, count, large, entered)
          case Err(e) => Err(e)
          case Ok(values) => Ok(Object(Zip(keys, values)))
  }

  /// `ParseBinaryJSON`: no bytes is JSON null; otherwise the first byte is
  /// the type tag and the value starts right after it. `spare` holds the
  /// bytes past the end of the slice `data` that its capacity still
  /// reaches: an index into `data` stops at its end, a slice expression
  /// at the end of `spare`.
  function ParseJson(data: seq<byte>, spare: seq<byte>): (r: Result<Value, Error>)
  {
    if |data| == 0 then Ok(Null) else Node(data[0], data, spare, 1, Enter({}, data[0]))
  }

  /// An empty input is JSON null; a non-empty one is the node its first
  /// byte tags, read from position 1.
  lemma ParseJsonDispatch(data: seq<byte>, spare: seq<byte>)
    ensures |data| == 0 ==> ParseJson(data, spare) == Ok(Null)
    ensures |data| > 0 && !IsKnownTag(data[0]) ==> ParseJson(data, spare) == Err(InvalidJsonType(data[0]))
    ensures |data| > 0 && IsKnownTag(data[0]) ==> !ParseJson(data, spare).Err? || ParseJson(data, spare).error != InvalidJsonType(data[0])
  {
  }

  /// Position of the `i`-th entry of a table starting at `pos`.
  function EntryPos(pos: nat, i: nat, large: bool): nat
  {
    pos + i * (1 + Width(large))
  }

  /// Entry layout: whether the value is inline or at an offset, each entry
  /// is one type byte and `Width(large)` bytes, so the `i`-th value of an
  /// array is the element read at `EntryPos(pos, i, large)`.
  lemma {:induction false} ElementsSpan(data: seq<byte>, spare: seq<byte>, pos: nat, count: nat, large: bool, entered: set<byte>)
    requires Elements(data, spare, pos, count, large, entered).Ok?
    ensures forall i :: 0 <= i < count ==>
      && Element(data, spare, EntryPos(pos, i, large), large, entered).Ok?
      && Elements(data, spare, pos, count, large, entered).value[i] == Element(data, spare, EntryPos(pos, i, large), large, entered).value.0
    decreases count
  {
    if count > 0 {
      var next := Element(data, spare, pos, large, entered).value.1;
      ElementsSpan(data, spare, next, count - 1, large, entered);
      forall i | 0 <= i < count
        ensures Element(data, spare, EntryPos(pos, i, large), large, entered).Ok?
        ensures Elements(data, spare, pos, count, large, entered).value[i] == Element(data, spare, EntryPos(pos, i, large), large, entered).value.0
      {
        if i == 0 {
          assert EntryPos(pos, i, large) == pos;
        } else {
          EntryPosStep(pos, i, large);
          assert EntryPos(pos, i, large) == EntryPos(next, i - 1, large);
        }
      }
    }
  }

  lemma EntryPosStep(pos: nat, i: nat, large: bool)
    requires i > 0
    ensures EntryPos(pos, i, large) == EntryPos(pos + 1 + Width(large), i - 1, large)
  {
    var stride := 1 + Width(large);
    assert i * stride == (i - 1) * stride + stride;
  }

  /// An offset entry pointing at or past the end of the document is
  /// rejected, and so is an offset of 0 back to a container type already
  /// open on the document; any other offset entry is the node at its
  /// offset, read from position 1.
  lemma ElementOffsetChecked(data: seq<byte>, spare: seq<byte>, pos: nat, large: bool, entered: set<byte>)
    requires pos < |data| && !IsInline(data[pos], large)
    requires ReadInt(data, pos + 1, large).Ok?
    ensures var offset := ReadInt(data, pos + 1, large).value.0;
      offset >= |data| || (offset == 0 && data[pos] in entered) ==> Element(data, spare, pos, large, entered) == Err(ElementOutOfRange)
    ensures var offset := ReadInt(data, pos + 1, large).value.0;
      offset < |data| && !(offset == 0 && data[pos] in entered) ==>
        var node := Node(data[pos], data[offset..], spare, 1, Enter(if offset == 0 then entered else {}, data[pos]));
        (Element(data, spare, pos, large, entered).Ok? <==> node.Ok?)
        && (node.Ok? ==> Element(data, spare, pos, large, entered).value.0 == node.value)
  {
  }

  // ---------------------------------------------------------------------
  // The offset-0 element: the decoder as written

  /// The arguments of the nested `binparserNode` call that the decoder as
  /// written makes for an offset entry: it only rejects offsets at or past
  /// the end of `data`, so an offset of 0 hands on all of `data` again.
  function OffsetTargetAsWritten(data: seq<byte>, pos: nat, large: bool): (r: Option<(byte, seq<byte>, nat)>)
    ensures r.Some? ==> |r.value.1| <= |data| && r.value.2 == 1
  {
    if pos >= |data| || IsInline(data[pos], large) then None
    else
      match ReadInt(data, pos + 1, large)
      case Err(_) => None
      case Ok((offset, _)) => if offset >= |data| then None else Some((data[pos], data[offset..], 1))
  }

  /// A small array whose one element is a small array at offset 0.
  const SelfNestedArray: seq<byte> := [SmallArray, 1, 0, 8, 0, SmallArray, 0, 0]

  /// As written, the first element of `SelfNestedArray` calls the decoder
  /// again on exactly the arguments of the top-level call (tag at byte 0,
  /// all of the data, position 1): the recursion never ends.
  lemma OffsetZeroRecursesAsWritten()
    ensures ReadInt(SelfNestedArray, 1, false) == Ok((1, 3))
    ensures ReadInt(SelfNestedArray, 3, false) == Ok((8, 5))
    ensures OffsetTargetAsWritten(SelfNestedArray, 5, false) == Some((SelfNestedArray[0], SelfNestedArray, 1))
  {
    var d := SelfNestedArray;
    assert d[1..3] == [1, 0] && d[3..5] == [8, 0] && d[6..8] == [0, 0];
    assert LittleEndian([1, 0]) == 1 && LittleEndian([8, 0]) == 8 && LittleEndian([0, 0]) == 0;
    assert d[0..] == d;
  }

  /// With offset 0 checked against the containers already open on the
  /// document, the same document is an error.
  lemma OffsetZeroRejected()
    ensures ParseJson(SelfNestedArray, []) == Err(ElementOutOfRange)
  {
    var d := SelfNestedArray;
    assert d[1..3] == [1, 0] && d[3..5] == [8, 0] && d[6..8] == [0, 0];
    assert LittleEndian([1, 0]) == 1 && LittleEndian([8, 0]) == 8 && LittleEndian([0, 0]) == 0;
    assert ReadInt(d, 1, false) == Ok((1, 3));
    assert ReadInt(d, 3, false) == Ok((8, 5));
    assert ReadInt(d, 6, false) == Ok((0, 8));
    assert Element(d, [], 5, false, {SmallArray}) == Err(ElementOutOfRange);
    assert Elements(d, [], 5, 1, false, {SmallArray}) == Err(ElementOutOfRange);
    assert ArrayNode(SmallArray, d, [], 1, {SmallArray}) == Err(ElementOutOfRange);
    assert Enter({}, SmallArray) == {SmallArray};
  }

  /// A scalar at offset 0 does not recurse, and is read as Go reads it:
  /// here the string whose length byte is the array's own count.
  lemma OffsetZeroScalar()
    ensures ParseJson([SmallArray, 1, 0, 8, 0, StringTag, 0, 0], []) == Ok(Array([String([0])]))
  {
    var d: seq<byte> := [SmallArray, 1, 0, 8, 0, StringTag, 0, 0];
    assert d[1..3] == [1, 0] && d[3..5] == [8, 0] && d[6..8] == [0, 0];
    assert LittleEndian([1, 0]) == 1 && LittleEndian([8, 0]) == 8 && LittleEndian([0, 0]) == 0;
    assert ReadInt(d, 1, false) == Ok((1, 3));
    assert ReadInt(d, 3, false) == Ok((8, 5));
    assert ReadInt(d, 6, false) == Ok((0, 8));
    OneByteLength(d, 1);
    assert d[0..] == d && d + [] == d && d[2..3] == [0];
    assert StringNode(d, [], 1) == Ok(String([0]));
    assert Element(d, [], 5, false, {SmallArray}) == Ok((String([0]), 8));
    assert Elements(d, [], 8, 0, false, {SmallArray}) == Ok([]);
    assert [String([0])] + [] == [String([0])];
    assert Elements(d, [], 5, 1, false, {SmallArray}) == Ok([String([0])]);
    assert ArrayNode(SmallArray, d, [], 1, {SmallArray}) == Ok(Array([String([0])]));
    assert Enter({}, SmallArray) == {SmallArray};
  }

  /// An offset of 0 to a different container type is read again from the
  /// top as that type; only re-entering a type already open is refused.
  /// Here a small array holds itself read as a large array, whose one
  /// entry is an inline null.
  lemma OffsetZeroOtherContainer()
    ensures ParseJson([SmallArray, 1, 0, 0, 0, LargeArray, 0, 0, 0, LiteralTag, NullLiteral, 0, 0, 0], [])
         == Ok(Array([Array([Null])]))
  {
    var d: seq<byte> := [SmallArray, 1, 0, 0, 0, LargeArray, 0, 0, 0, LiteralTag, NullLiteral, 0, 0, 0];
    assert d[1..3] == [1, 0] && d[3..5] == [0, 0] && d[6..8] == [0, 0];
    assert d[1..5] == [1, 0, 0, 0] && d[5..9] == [LargeArray, 0, 0, 0];
    assert LittleEndian([1, 0]) == 1 && LittleEndian([0, 0]) == 0;
    assert LittleEndian([1, 0, 0, 0]) == 1;
    assert ReadInt(d, 1, false) == Ok((1, 3));
    assert ReadInt(d, 3, false) == Ok((0, 5));
    assert ReadInt(d, 6, false) == Ok((0, 8));
    assert ReadInt(d, 1, true) == Ok((1, 5));
    assert ReadInt(d, 5, true).Ok? && ReadInt(d, 5, true).value.1 == 9;
    var inner: set<byte> := {SmallArray, LargeArray};
    assert Element(d, [], 9, true, inner) == Ok((Null, 14));
    assert Elements(d, [], 14, 0, true, inner) == Ok([]);
    assert [Null] + [] == [Null];
    assert Elements(d, [], 9, 1, true, inner) == Ok([Null]);
    assert ArrayNode(LargeArray, d, [], 1, inner) == Ok(Array([Null]));
    assert d[0..] == d;
    assert Enter({SmallArray}, LargeArray) == inner;
    assert Node(LargeArray, d, [], 1, inner) == Ok(Array([Null]));
    assert Element(d, [], 5, false, {SmallArray}) == Ok((Array([Null]), 8));
    assert Elements(d, [], 8, 0, false, {SmallArray}) == Ok([]);
    assert [Array([Null])] + [] == [Array([Null])];
    assert Elements(d, [], 5, 1, false, {SmallArray}) == Ok([Array([Null])]);
    assert ArrayNode(SmallArray, d, [], 1, {SmallArray}) == Ok(Array([Array([Null])]));
    assert Enter({}, SmallArray) == {SmallArray};
  }

  // ---------------------------------------------------------------------
  // JSON diffs

  datatype DiffOp = Replace | Insert | Remove

  /// One decoded diff: the operation, the JSON path, and the value for
  /// REPLACE and INSERT.
  datatype JsonDiff = JsonDiff(op: DiffOp, path: seq<byte>, value: Option<Value>)

  /// The SQL expression, as pieces: the column placeholder `%s`, text, a
  /// path, and a JSON value in its SQL form (not modelled further).
  datatype Piece = Column | Text(text: string) | Path(path: seq<byte>) | Sql(value: Value)

  function FunctionName(op: DiffOp): string
  {
    match op
    case Replace => "JSON_REPLACE("
    case Insert => "JSON_INSERT("
    case Remove => "JSON_REMOVE("
  }

  /// One diff at `pos`: an operation byte, a variable-length path length
  /// and the path, then, except for REMOVE, a variable-length value length
  /// and the binary JSON value; also the position after it.
  function DiffEntry(data: seq<byte>, pos: nat): (r: Result<(JsonDiff, nat), Error>)
    requires pos < |data|
    ensures r.Ok? ==> pos < r.value.1 <= |data|
    ensures r.Ok? ==> (r.value.0.value.None? <==> r.value.0.op == Remove)
    ensures r.Ok? ==> data[pos] <= 2
    ensures r == Err(InvalidDiffOp(data[pos])) <==> data[pos] > 2
  {
    var b := data[pos];
    if b > 2 then Err(InvalidDiffOp(b))
    else DiffPathAt(data, if b == 0 then Replace else if b == 1 then Insert else Remove, pos + 1)
  }

  /// The rest of a diff once its operation byte is read, up to `afterOp`:
  /// the path, then the value.
  function DiffPathAt(data: seq<byte>, op: DiffOp, afterOp: nat): (r: Result<(JsonDiff, nat), Error>)
    requires afterOp <= |data|
    ensures r.Ok? ==> afterOp < r.value.1 <= |data|
    ensures r.Ok? ==> r.value.0.op == op && (r.value.0.value.None? <==> op == Remove)
  {
    match VarLength(data, afterOp)
    case Err(e) => Err(e)
    case Ok((pathLength, pathStart)) =>
      if pathLength < 0 || pathStart + pathLength > |data| then Err(OutOfBounds)
      else
        DiffValueAt(data, op, data[pathStart..pathStart + pathLength], pathStart + pathLength)
  }

  /// The rest of a diff once its path is read, up to `afterPath`: nothing
  /// for REMOVE, otherwise a variable-length value length and the value.
  /// The value is a slice of the diff, so the rest of the diff is its
  /// `spare`.
  function DiffValueAt(data: seq<byte>, op: DiffOp, path: seq<byte>, afterPath: nat): (r: Result<(JsonDiff, nat), Error>)
    requires afterPath <= |data|
    ensures r.Ok? ==> afterPath <= r.value.1 <= |data|
    ensures r.Ok? ==> r.value.0.op == op && r.value.0.path == path && (r.value.0.value.None? <==> op == Remove)
  {
    if op == Remove then Ok((JsonDiff(Remove, path, None), afterPath))
    else
      match VarLength(data, afterPath)
      case Err(e) => Err(e)
      case Ok((valueLength, valueStart)) =>
        if valueLength < 0 || valueStart + valueLength > |data| then Err(OutOfBounds)
        else
          match ParseJson(data[valueStart..valueStart + valueLength], data[valueStart + valueLength..])
          case Err(e) => if e == OutOfBounds then Err(e) else Err(DiffValue(path, e))
          case Ok(v) => Ok((JsonDiff(op, path, Some(v)), valueStart + valueLength))
  }

  /// The diffs from `pos` to the end of the data, one entry after the other.
  function DiffOps(data: seq<byte>, pos: nat): (r: Result<seq<JsonDiff>, Error>)
    ensures r.Ok? ==> forall i :: 0 <= i < |r.value| ==> (r.value[i].value.None? <==> r.value[i].op == Remove)
    decreases |data| - pos
  {
    if pos >= |data| then Ok([])
    else
      match DiffEntry(data, pos)
      case Err(e) => Err(e)
      case Ok((d, next)) => PrependDiff(d, DiffOps(data, next))
  }

  function PrependDiff(d: JsonDiff, r: Result<seq<JsonDiff>, Error>): Result<seq<JsonDiff>, Error>
  {
    match r
    case Err(e) => Err(e)
    case Ok(ds) => Ok([d] + ds)
  }

  /// The nested expression for `ops`: each operation wraps the expression
  /// of all earlier ones, and only the innermost starts from the column.
  function Render(ops: seq<JsonDiff>): seq<Piece>
  {
    if ops == [] then []
    else
      var last := ops[|ops| - 1];
      var inner := if |ops| == 1 then [Column] else Render(ops[..|ops| - 1]);
      [Text(FunctionName(last.op))] + inner + RenderTail(last)
  }

  /// What follows the inner expression: the path and, for REPLACE and
  /// INSERT, the value, then the closing parenthesis.
  function RenderTail(d: JsonDiff): seq<Piece>
  {
    [Text(", "), Text("_utf8mb4"), Text("'"), Path(d.path), Text("'")]
    + (if d.value.Some? then [Text(", "), Sql(d.value.value)] else [])
    + [Text(")")]
  }

  /// `ParseBinaryJSONDiff`: no bytes is the empty expression; a byte that
  /// is no operation is an error unless the whole input is JSON null, and
  /// a null check that runs past the end panics (`OutOfBounds`).
  function DiffSql(data: seq<byte>): (r: Result<seq<Piece>, Error>)
  {
    if |data| == 0 then Ok([])
    else
      match DiffOps(data, 0)
      case Ok(ops) => Ok(Render(ops))
      case Err(e) =>
        if !e.InvalidDiffOp? then Err(e)
        else
          var js := ParseJson(data, []);
          if js == Ok(Null) then Ok([Sql(Null)])
          else if js == Err(OutOfBounds) then Err(OutOfBounds)
          else Err(e)
  }

  // Counting pieces of an expression

  function CountColumns(ps: seq<Piece>): nat
  {
    if ps == [] then 0 else (if ps[0].Column? then 1 else 0) + CountColumns(ps[1..])
  }

  function IsFunctionName(p: Piece): bool
  {
    p.Text? && (p.text == FunctionName(Replace) || p.text == FunctionName(Insert) || p.text == FunctionName(Remove))
  }

  function CountFunctions(ps: seq<Piece>): nat
  {
    if ps == [] then 0 else (if IsFunctionName(ps[0]) then 1 else 0) + CountFunctions(ps[1..])
  }

  lemma {:induction false} CountsAppend(a: seq<Piece>, b: seq<Piece>)
    ensures CountColumns(a + b) == CountColumns(a) + CountColumns(b)
    ensures CountFunctions(a + b) == CountFunctions(a) + CountFunctions(b)
    decreases |a|
  {
    if a != [] {
      assert (a + b)[1..] == a[1..] + b;
      CountsAppend(a[1..], b);
    } else {
      assert a + b == b;
    }
  }

  lemma TailCounts(d: JsonDiff)
    ensures CountColumns(RenderTail(d)) == 0 && CountFunctions(RenderTail(d)) == 0
  {
    NothingCounted(RenderTail(d));
  }

  lemma {:induction false} NothingCounted(ps: seq<Piece>)
    requires forall k :: 0 <= k < |ps| ==> !ps[k].Column? && !IsFunctionName(ps[k])
    ensures CountColumns(ps) == 0 && CountFunctions(ps) == 0
    decreases |ps|
  {
    if ps != [] {
      NothingCounted(ps[1..]);
    }
  }

  /// `k` diffs give `k` nested functions, with the column placeholder once,
  /// inside the innermost; the outermost function is the last diff's.
  lemma {:induction false} RenderShape(ops: seq<JsonDiff>)
    requires |ops| > 0
    ensures CountFunctions(Render(ops)) == |ops|
    ensures CountColumns(Render(ops)) == 1
    ensures Render(ops)[0] == Text(FunctionName(ops[|ops| - 1].op))
    ensures Render(ops)[|Render(ops)| - 1] == Text(")")
    decreases |ops|
  {
    var last := ops[|ops| - 1];
    var inner := if |ops| == 1 then [Column] else Render(ops[..|ops| - 1]);
    if |ops| > 1 {
      RenderShape(ops[..|ops| - 1]);
    } else {
      assert CountFunctions([Column]) == 0 && CountColumns([Column]) == 1;
    }
    CountsAppend([Text(FunctionName(last.op))], inner);
    CountsAppend([Text(FunctionName(last.op))] + inner, RenderTail(last));
    TailCounts(last);
  }

  /// A REMOVE diff renders no value; REPLACE and INSERT render theirs.
  lemma RemoveHasNoValue(d: JsonDiff)
    requires d.value.None? <==> d.op == Remove
    ensures (exists k :: 0 <= k < |RenderTail(d)| && RenderTail(d)[k].Sql?) <==> d.op != Remove
  {
    var t := RenderTail(d);
    if d.op != Remove {
      assert t[6].Sql?;
    } else {
      assert t == [Text(", "), Text("_utf8mb4"), Text("'"), Path(d.path), Text("'"), Text(")")];
    }
  }

  /// JSON null, stored as a literal, is a diff that renders as `null`.
  lemma NullDiff()
    ensures DiffSql([LiteralTag, NullLiteral]) == Ok([Sql(Null)])
  {
  }

  /// A byte that is no operation, on data too short for the JSON it tags:
  /// the null check runs past the end, which is a panic, not the
  /// operation error.
  lemma NullCheckOutOfBounds()
    ensures DiffSql([Int16Tag]) == Err(OutOfBounds)
  {
    assert IntNode(Int16Tag, [Int16Tag], 1) == Err(OutOfBounds);
  }

  /// A string value whose size runs past the end of its diff value: Go
  /// slices it out of the diff bytes that follow, which the value's
  /// capacity still reaches, and renders the REPLACE with those bytes.
  lemma CapacityReadsOn()
    ensures DiffSql([0, 1, 0x24, 2, StringTag, 3, 2, 1, 0x24])
         == Ok(Render([JsonDiff(Replace, [0x24], Some(String([2, 1, 0x24]))),
                       JsonDiff(Remove, [0x24], None)]))
  {
    var d: seq<byte> := [0, 1, 0x24, 2, StringTag, 3, 2, 1, 0x24];
    var value: seq<byte> := [StringTag, 3];
    var replace := JsonDiff(Replace, [0x24], Some(String([2, 1, 0x24])));
    var remove := JsonDiff(Remove, [0x24], None);
    OneByteLength(d, 1);
    OneByteLength(d, 3);
    OneByteLength(d, 7);
    OneByteLength(value, 1);
    assert d[2..3] == [0x24] && d[8..9] == [0x24] && d[4..6] == value && d[6..] == [2, 1, 0x24];
    assert (value + [2, 1, 0x24])[2..5] == [2, 1, 0x24];
    assert StringNode(value, [2, 1, 0x24], 1) == Ok(String([2, 1, 0x24]));
    assert ParseJson(value, [2, 1, 0x24]) == Ok(String([2, 1, 0x24]));
    assert DiffEntry(d, 0) == Ok((replace, 6));
    assert DiffEntry(d, 6) == Ok((remove, 9));
    assert DiffOps(d, 9) == Ok([]);
    assert [remove] + [] == [remove] && [replace] + [remove] == [replace, remove];
    assert DiffOps(d, 6) == Ok([remove]);
    assert DiffOps(d, 0) == Ok([replace, remove]);
  }

  // =====================================================================
  // The decoder as the loops that read the bytes

  /// `readVariableLength`: ORs `(b & 0x7f) << 7*idx` into the 64 bits of
  /// the length until a byte with a clear high bit.
  method ReadVariableLength(data: seq<byte>, pos: nat) returns (r: Result<(int, nat), Error>)
    ensures r == VarLength(data, pos)
  {
    var length: nat := 0;  // the bits of Go's `int`
    var idx: nat := 0;     // a byte
    var p := pos;
    while true
      invariant pos <= p && (p == pos || p <= |data|)
      invariant idx == (p - pos) % 256
      invariant p <= |data| ==> length == LengthBits(data[pos..p])
      invariant LengthEnd(data, pos) == LengthEnd(data, p)
      decreases |data| + 1 - p
    {
      if p >= |data| {
        return Err(OutOfBounds);
      }
      var bb := data[p];
      LengthByteStep(data, pos, p);
      length := BitOr(length, ShiftedGroup(bb, idx));
      p := p + 1;
      if bb < 0x80 {  // int8(bb) >= 0
        return Ok((Int64(length), p));
      }
      idx := (idx + 1) % 256;
    }
  }

  /// One turn of `readVariableLength`'s loop at `p`: the byte's group
  /// joins the bits of the bytes before it, the byte-wide counter moves
  /// on, and the length ends here or further on.
  lemma LengthByteStep(data: seq<byte>, pos: nat, p: nat)
    requires pos <= p < |data|
    ensures var bits := BitOr(LengthBits(data[pos..p]), ShiftedGroup(data[p], (p - pos) % 256));
      && bits == LengthBits(data[pos..p + 1])
      && ((p - pos) % 256 + 1) % 256 == (p + 1 - pos) % 256
      && LengthEnd(data, p) == if data[p] < 0x80 then Ok(p + 1) else LengthEnd(data, p + 1)
  {
    LengthBitsSnoc(data[pos..p], data[p]);
    assert data[pos..p] + [data[p]] == data[pos..p + 1];
    ByteCounterStep(p - pos);
  }

  /// A byte-wide counter stepped by one stays the count modulo 256.
  lemma ByteCounterStep(n: nat)
    ensures (n % 256 + 1) % 256 == (n + 1) % 256
  {
    var q, r := n / 256, n % 256;
    assert n == 256 * q + r;
    if r < 255 {
      assert (n + 1) / 256 == q;
    } else {
      assert (n + 1) / 256 == q + 1;
    }
  }

  /// The loop of `binparserInt`: accumulates `uint64(data[pos+i]) << 8*i`
  /// over `size` bytes.
  method ReadLittleEndian(data: seq<byte>, pos: nat, size: nat) returns (r: Result<nat, Error>)
    ensures size > 0 && pos + size > |data| ==> r == Err(OutOfBounds)
    ensures pos + size <= |data| ==> r == Ok(LittleEndian(data[pos..pos + size]))
    ensures size == 0 ==> r == Ok(0)
  {
    var val: nat := 0;
    for i := 0 to size
      invariant i == 0 || pos + i <= |data|
      invariant i == 0 ==> val == 0
      invariant pos + i <= |data| ==> val == LittleEndian(data[pos..pos + i])
    {
      if pos + i >= |data| {
        return Err(OutOfBounds);
      }
      LittleEndianSnoc(data[pos..pos + i], data[pos + i]);
      assert data[pos..pos + i + 1] == data[pos..pos + i] + [data[pos + i]];
      val := val + Pow256(i) * (data[pos + i] as int);
    }
    return Ok(val);
  }

  lemma LittleEndianSnoc(bs: seq<byte>, b: byte)
    ensures LittleEndian(bs + [b]) == LittleEndian(bs) + Pow256(|bs|) * (b as int)
  {
    LittleEndianAppend(bs, [b]);
    LittleEndianSingle(b);
  }

  lemma LittleEndianSingle(b: byte)
    ensures LittleEndian([b]) == b as int
  {
    assert [b][1..] == [];
  }

  /// `binparserInt`: the value of the `IntSize(typ)` bytes, rendered with
  /// the width and signedness of the tag.
  method ParseInt(typ: byte, data: seq<byte>, pos: nat) returns (r: Result<Value, Error>)
    ensures r == IntNode(typ, data, pos)
  {
    var size := IntSize(typ);
    var read := ReadLittleEndian(data, pos, size);
    if read.Err? {
      return Err(read.error);
    }
    var val := read.value;
    if IsSignedTag(typ) {
      r := Ok(Number(IntToDecimal(ToSigned(val, size)), Signed));
    } else if IsUnsignedTag(typ) {
      r := Ok(Number(IntToDecimal(val), Unsigned));
    } else if typ == DoubleTag {
      r := Ok(DoubleBits(val));
    } else {
      r := Err(InvalidIntType(typ));
    }
  }

  /// `binparserString`.
  method ParseString(data: seq<byte>, spare: seq<byte>, pos: nat) returns (r: Result<Value, Error>)
    ensures r == StringNode(data, spare, pos)
  {
    var header := ReadVariableLength(data, pos);
    if header.Err? {
      return Err(header.error);
    }
    var size, start := header.value.0, header.value.1;
    if size < 0 || start + size > |data| + |spare| {
      return Err(OutOfBounds);
    }
    var backing := data + spare;
    return Ok(String(backing[start..start + size]));
  }

  /// `binparserNode`.
  method ParseNode(typ: byte, data: seq<byte>, spare: seq<byte>, pos: nat, entered: set<byte>) returns (r: Result<Value, Error>)
    ensures r == Node(typ, data, spare, pos, entered)
    decreases |data|, Containers - entered, NodeRank(typ), 0
  {
    if typ == SmallObject || typ == LargeObject {
      r := ParseObject(typ, data, spare, pos, entered);
    } else if typ == SmallArray || typ == LargeArray {
      r := ParseArray(typ, data, spare, pos, entered);
    } else if typ == LiteralTag {
      r := LiteralNode(data, pos);
    } else if Int16Tag <= typ <= DoubleTag {
      r := ParseInt(typ, data, pos);
    } else if typ == StringTag {
      r := ParseString(data, spare, pos);
    } else if typ == OpaqueTag {
      r := OpaqueNode(data, spare, pos);
    } else {
      r := Err(InvalidJsonType(typ));
    }
  }

  /// `binparserElement`.
  method ParseElement(data: seq<byte>, spare: seq<byte>, pos: nat, large: bool, entered: set<byte>) returns (r: Result<(Value, nat), Error>)
    ensures r == Element(data, spare, pos, large, entered)
    decreases |data|, Containers - entered, 1, 0
  {
    if pos >= |data| {
      return Err(OutOfBounds);
    }
    var typ := data[pos];
    var p := pos + 1;
    if IsInline(typ, large) {
      var elem := ParseNode(typ, data, spare, p, entered);
      if elem.Err? {
        return Err(elem.error);
      }
      if large {
        p := p + 4;
      } else {
        p := p + 2;
      }
      return Ok((elem.value, p));
    }
    var entry := ReadInt(data, p, large);
    if entry.Err? {
      return Err(entry.error);
    }
    var offset := entry.value.0;
    p := entry.value.1;
    if offset >= |data| || (offset == 0 && typ in entered) {
      return Err(ElementOutOfRange);
    }
    var elem := ParseNode(typ, data[offset..], spare, 1, Enter(if offset == 0 then entered else {}, typ));
    if elem.Err? {
      return Err(elem.error);
    }
    return Ok((elem.value, p));
  }

  /// The values read so far in front of the ones still to read.
  function PrependAll(done: seq<Value>, r: Result<seq<Value>, Error>): Result<seq<Value>, Error>
  {
    match r
    case Err(e) => Err(e)
    case Ok(rest) => Ok(done + rest)
  }

  /// One step of the value-entry loop: the entry at `p` joins the values
  /// read so far.
  lemma ElementsStep(data: seq<byte>, spare: seq<byte>, p: nat, count: nat, large: bool, entered: set<byte>, nodes: seq<Value>, v: Value, next: nat)
    requires count > 0 && Element(data, spare, p, large, entered) == Ok((v, next))
    ensures PrependAll(nodes, Elements(data, spare, p, count, large, entered))
         == PrependAll(nodes + [v], Elements(data, spare, next, count - 1, large, entered))
  {
    var rest := Elements(data, spare, next, count - 1, large, entered);
    if rest.Ok? {
      assert nodes + ([v] + rest.value) == nodes + [v] + rest.value;
    }
  }

  /// Reads `count` value entries from `pos`, appending each to a list.
  method ParseElements(data: seq<byte>, spare: seq<byte>, pos: nat, count: nat, large: bool, entered: set<byte>) returns (r: Result<seq<Value>, Error>)
    ensures r == Elements(data, spare, pos, count, large, entered)
    decreases |data|, Containers - entered, 2, count
  {
    var nodes: seq<Value> := [];
    var p := pos;
    ghost var all := Elements(data, spare, pos, count, large, entered);
    assert all.Ok? ==> [] + all.value == all.value;
    for i := 0 to count
      invariant Elements(data, spare, pos, count, large, entered) == PrependAll(nodes, Elements(data, spare, p, count - i, large, entered))
    {
      var elem := ParseElement(data, spare, p, large, entered);
      if elem.Err? {
        return Err(elem.error);
      }
      ElementsStep(data, spare, p, count - i, large, entered, nodes, elem.value.0, elem.value.1);
      nodes := nodes + [elem.value.0];
      p := elem.value.1;
    }
    assert nodes + [] == nodes;
    return Ok(nodes);
  }

  /// `binparserArray`.
  method ParseArray(typ: byte, data: seq<byte>, spare: seq<byte>, pos: nat, entered: set<byte>) returns (r: Result<Value, Error>)
    ensures r == ArrayNode(typ, data, spare, pos, entered)
    decreases |data|, Containers - entered, 3, 0
  {
    var large := typ == LargeArray;
    var count := ReadInt(data, pos, large);
    if count.Err? {
      return Err(count.error);
    }
    var size := ReadInt(data, count.value.1, large);
    if size.Err? {
      return Err(size.error);
    }
    var nodes := ParseElements(data, spare, size.value.1, count.value.0, large, entered);
    if nodes.Err? {
      return Err(nodes.error);
    }
    return Ok(Array(nodes.value));
  }

  /// The keys read so far in front of the ones still to read.
  function PrependKeys(done: seq<seq<byte>>, r: Result<(seq<seq<byte>>, nat), Error>): Result<(seq<seq<byte>>, nat), Error>
  {
    match r
    case Err(e) => Err(e)
    case Ok((rest, end)) => Ok((done + rest, end))
  }

  /// One key entry of `binparserObject`'s key loop.
  method ReadKeyEntry(data: seq<byte>, pos: nat, large: bool) returns (r: Result<(seq<byte>, nat), Error>)
    ensures r == KeyEntry(data, pos, large)
  {
    var keyOffset := ReadInt(data, pos, large);
    if keyOffset.Err? {
      return Err(keyOffset.error);
    }
    var keyLength := ReadInt(data, keyOffset.value.1, false);  // always 16-bit
    if keyLength.Err? {
      return Err(keyLength.error);
    }
    var keyOffsetStart := keyOffset.value.0 + 1;
    if keyOffsetStart >= |data| || keyOffsetStart + keyLength.value.0 > |data| {
      return Err(ObjectKeyOutOfRange);
    }
    return Ok((data[keyOffsetStart..keyOffsetStart + keyLength.value.0], keyLength.value.1));
  }

  /// One step of the key loop: the entry at `p` joins the keys read so far.
  lemma KeysStep(data: seq<byte>, p: nat, count: nat, large: bool, keys: seq<seq<byte>>, key: seq<byte>, next: nat)
    requires count > 0 && KeyEntry(data, p, large) == Ok((key, next))
    ensures PrependKeys(keys, Keys(data, p, count, large)) == PrependKeys(keys + [key], Keys(data, next, count - 1, large))
  {
    var rest := Keys(data, next, count - 1, large);
    if rest.Ok? {
      assert keys + ([key] + rest.value.0) == keys + [key] + rest.value.0;
    }
  }

  /// The key loop of `binparserObject`.
  method ParseKeys(data: seq<byte>, pos: nat, count: nat, large: bool) returns (r: Result<(seq<seq<byte>>, nat), Error>)
    ensures r == Keys(data, pos, count, large)
  {
    var p := pos;
    var keys: seq<seq<byte>> := [];
    ghost var all := Keys(data, pos, count, large);
    assert all.Ok? ==> [] + all.value.0 == all.value.0;
    for i := 0 to count
      invariant Keys(data, pos, count, large) == PrependKeys(keys, Keys(data, p, count - i, large))
    {
      var entry := ReadKeyEntry(data, p, large);
      if entry.Err? {
        return Err(entry.error);
      }
      KeysStep(data, p, count - i, large, keys, entry.value.0, entry.value.1);
      p := entry.value.1;
      keys := keys + [entry.value.0];
    }
    assert keys + [] == keys;
    return Ok((keys, p));
  }

  /// `binparserObject`: a loop over the key entries, then one over the
  /// value entries.
  method ParseObject(typ: byte, data: seq<byte>, spare: seq<byte>, pos: nat, entered: set<byte>) returns (r: Result<Value, Error>)
    ensures r == ObjectNode(typ, data, spare, pos, entered)
    decreases |data|, Containers - entered, 3, 0
  {
    var large := typ == LargeObject;
    var header := ReadInt(data, pos, large);
    if header.Err? {
      return Err(header.error);
    }
    var elementCount := header.value.0;
    var size := ReadInt(data, header.value.1, large);
    if size.Err? {
      return Err(size.error);
    }
    var keys := ParseKeys(data, size.value.1, elementCount, large);
    if keys.Err? {
      return Err(keys.error);
    }
    var p := keys.value.1;
    var values := ParseElements(data, spare, p, elementCount, large, entered);
    if values.Err? {
      return Err(values.error);
    }
    var members := PairUp(keys.value.0, values.value);
    return Ok(Object(members));
  }

  /// The loop of `binparserObject` that adds each key with its value.
  method PairUp(keys: seq<seq<byte>>, values: seq<Value>) returns (members: seq<Member>)
    requires |keys| == |values|
    ensures members == Zip(keys, values)
  {
    members := [];
    for i := 0 to |keys|
      invariant |members| == i
      invariant forall j :: 0 <= j < i ==> members[j] == Member(keys[j], values[j])
    {
      members := members + [Member(keys[i], values[i])];  // object.Add
    }
  }

  /// `ParseBinaryJSON`.
  method ParseBinaryJson(data: seq<byte>, spare: seq<byte>) returns (r: Result<Value, Error>)
    ensures r == ParseJson(data, spare)
  {
    if |data| == 0 {
      r := Ok(Null);
    } else {
      r := ParseNode(data[0], data, spare, 1, Enter({}, data[0]));
    }
  }

  /// The diffs read so far in front of the ones still to read.
  function PrependDiffs(done: seq<JsonDiff>, r: Result<seq<JsonDiff>, Error>): Result<seq<JsonDiff>, Error>
  {
    match r
    case Err(e) => Err(e)
    case Ok(rest) => Ok(done + rest)
  }

  /// One diff of `ParseBinaryJSONDiff`'s loop, read but not yet rendered.
  method ReadDiffEntry(data: seq<byte>, pos: nat) returns (r: Result<(JsonDiff, nat), Error>)
    requires pos < |data|
    ensures r == DiffEntry(data, pos)
  {
    var opType := data[pos];
    var op: DiffOp;
    if opType == 0 {
      op := Replace;
    } else if opType == 1 {
      op := Insert;
    } else if opType == 2 {
      op := Remove;
    } else {
      assert DiffEntry(data, pos) == Err(InvalidDiffOp(opType));
      return Err(InvalidDiffOp(opType));
    }
    assert DiffEntry(data, pos) == DiffPathAt(data, op, pos + 1);
    var pathLength := ReadVariableLength(data, pos + 1);
    if pathLength.Err? {
      return Err(pathLength.error);
    }
    var p := pathLength.value.1;
    if pathLength.value.0 < 0 || p + pathLength.value.0 > |data| {
      return Err(OutOfBounds);
    }
    var path := data[p..p + pathLength.value.0];
    r := ReadDiffValue(data, op, path, p + pathLength.value.0);
  }

  /// The value of one diff of `ParseBinaryJSONDiff`'s loop.
  method ReadDiffValue(data: seq<byte>, op: DiffOp, path: seq<byte>, afterPath: nat) returns (r: Result<(JsonDiff, nat), Error>)
    requires afterPath <= |data|
    ensures r == DiffValueAt(data, op, path, afterPath)
  {
    if op == Remove {
      return Ok((JsonDiff(Remove, path, None), afterPath));
    }
    var p := afterPath;
    var valueLength := ReadVariableLength(data, p);
    if valueLength.Err? {
      return Err(valueLength.error);
    }
    p := valueLength.value.1;
    if valueLength.value.0 < 0 || p + valueLength.value.0 > |data| {
      return Err(OutOfBounds);
    }
    var parsed := ParseBinaryJson(data[p..p + valueLength.value.0], data[p + valueLength.value.0..]);
    if parsed.Err? {
      if parsed.error == OutOfBounds {  // a panic is not wrapped
        return Err(OutOfBounds);
      }
      return Err(DiffValue(path, parsed.error));
    }
    return Ok((JsonDiff(op, path, Some(parsed.value)), p + valueLength.value.0));
  }

  /// `ParseBinaryJSONDiff`: reads the diffs one after the other, each time
  /// wrapping the expression built so far in the next function; an unknown
  /// operation byte is accepted only when the whole input is a JSON null.
  method ParseBinaryJsonDiff(data: seq<byte>) returns (r: Result<seq<Piece>, Error>)
    ensures r == DiffSql(data)
  {
    if |data| == 0 {
      return Ok([]);
    }
    var diff: seq<Piece> := [];
    var pos := 0;
    var outer := false;
    ghost var done: seq<JsonDiff> := [];
    ghost var all := DiffOps(data, 0);
    assert all.Ok? ==> [] + all.value == all.value;
    while pos < |data|
      invariant pos <= |data|
      invariant DiffOps(data, 0) == PrependDiffs(done, DiffOps(data, pos))
      invariant diff == Render(done) && (outer <==> |done| > 0)
      decreases |data| - pos
    {
      var entry := ReadDiffEntry(data, pos);
      if entry.Err? {
        if entry.error.InvalidDiffOp? {
          // Can be a JSON null.
          var js := ParseBinaryJson(data, []);
          if js.Ok? && js.value == Null {
            return Ok([Sql(Null)]);
          }
          if js.Err? && js.error == OutOfBounds {  // the check itself panics
            return Err(OutOfBounds);
          }
        }
        return Err(entry.error);
      }
      var d := entry.value.0;
      diff := WrapDiff(diff, outer, d);
      outer := true;
      RenderAppend(done, d);
      PrependDiffsAppend(done, d, DiffOps(data, entry.value.1));
      done := done + [d];
      pos := entry.value.1;
    }
    assert done + [] == done;
    return Ok(diff);
  }

  /// The text written for one diff: the function name, the expression so
  /// far (or the column for the first diff), the path and, when present,
  /// the value.
  method WrapDiff(diff: seq<Piece>, outer: bool, d: JsonDiff) returns (next: seq<Piece>)
    requires !outer ==> diff == []
    ensures next == [Text(FunctionName(d.op))] + (if outer then diff else [Column]) + RenderTail(d)
  {
    var innerStr: seq<Piece> := [];
    next := diff;
    if outer {
      innerStr := next;
      next := [];
    }
    next := next + [Text(FunctionName(d.op))];
    if outer {
      assert next == [Text(FunctionName(d.op))];
      next := next + innerStr;
    } else {
      assert next == diff + [Text(FunctionName(d.op))];
      next := next + [Column];  // replaced by the column name later
    }
    ghost var head := next;
    assert head == [Text(FunctionName(d.op))] + (if outer then diff else [Column]);
    ghost var pathPart := [Text(", "), Text("_utf8mb4"), Text("'"), Path(d.path), Text("'")];
    ghost var valuePart := if d.value.Some? then [Text(", "), Sql(d.value.value)] else [];
    next := next + [Text(", "), Text("_utf8mb4"), Text("'"), Path(d.path), Text("'")];
    if d.value.Some? {
      next := next + [Text(", "), Sql(d.value.value)];
    }
    assert next == head + pathPart + valuePart;
    next := next + [Text(")")];  // close the function
    AppendThree(head, pathPart, valuePart, [Text(")")]);
    assert RenderTail(d) == pathPart + valuePart + [Text(")")];
  }

  lemma RenderAppend(done: seq<JsonDiff>, d: JsonDiff)
    ensures Render(done + [d])
      == [Text(FunctionName(d.op))] + (if done == [] then [Column] else Render(done)) + RenderTail(d)
  {
    assert (done + [d])[..|done|] == done;
  }

  lemma AppendThree<T>(h: seq<T>, a: seq<T>, b: seq<T>, c: seq<T>)
    ensures h + a + b + c == h + (a + b + c)
  {
  }

  lemma PrependDiffsAppend(done: seq<JsonDiff>, d: JsonDiff, r: Result<seq<JsonDiff>, Error>)
    ensures PrependDiffs(done, PrependDiff(d, r)) == PrependDiffs(done + [d], r)
  {
    if r.Ok? {
      assert done + ([d] + r.value) == done + [d] + r.value;
    }
  }
}
