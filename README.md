# Vitess core pieces in Dafny

This project models four pieces of Vitess and proves properties about them.

- **MySQL binary JSON decoder** (`go/mysql/binlog/binlog_json.go`). It decodes the `json_binary` format that binlog row events carry, and translates a partial-update JSON diff into a nested `JSON_REPLACE`/`JSON_INSERT`/`JSON_REMOVE` SQL expression. Module `BinlogJson`:
  - the decoder is stated twice. First as functions over the input bytes (`Node`, `Element`, `Elements`, `Keys`, `DiffSql`, …). Then as the loops that read them (`ParseNode`, `ParseElements`, `ParseKeys`, `ParseBinaryJsonDiff`, …), each proved to compute its function;
  - every place where the Go code would panic on a read out of range becomes the error `OutOfBounds`. An index `data[i]` is out of range past `len(data)`. A slice expression `data[i:j]` is only out of range past `cap(data)`, so it may read bytes beyond the end of the slice it was given;
  - the decoder therefore takes, besides its input `data`, the bytes `spare` that lie between `len(data)` and `cap(data)`. For a document decoded on its own, the capacity is taken to be its length, and `spare` is empty. A diff value is the slice `data[pos:pos+valueLen]` of the diff, so its `spare` is the rest of the diff;
  - a variable-length size is read as Go reads it: seven-bit groups ORed into a 64-bit `int` at shifts `7*idx`, with `idx` a byte. Groups shifted to bit 64 or beyond are lost, and bit 63 makes the size negative;
  - opaque dates, times and datetimes keep their decoded fields, and are proved to decode what packing those fields produces.
- **HighwayHash streaming digest** (`go/vt/vthash/highway/highwayhash.go`). Module `Highway`:
  - the class `Digest` keeps the lane array, the 32-byte buffer and the offset;
  - a ghost history records what was written and which prefix has been mixed in;
  - `hashBuffer`'s lane arithmetic and block padding are written out on `bv64`/`bv32` and bytes;
  - the compression functions `initialize`, `update` (one block) and `finalize` are not part of this model. They are function values in a `Compression` record.
- **The vtgate transaction coordinator `TxConn`**, as its unit tests (`go/vt/vtgate/tx_conn_test.go`) fix it. Module `TxConn`:
  - each operation is a function of a `World`. A `World` holds the session, the tablets and the NonAtomicCommit counter;
  - the tablets are a log of every call and the one-shot failures scripted on them (the sandbox's `MustFail…` counters), plus the reserved ids they hand out and the unresolved transactions they report;
  - the classes `Session`, `Sandbox` and `TxConn` change that state in place. Each method is proved to end in the state its function describes;
  - module `TxConnProperties` proves what the tests assert about those functions: the calls each tablet receives and their order, the errors returned, and the session afterwards.
- **The throttler's result ring** (`go/vt/throttler/result_test.go`). Module `Throttler`:
  - the class `ResultRing` is a fixed array with a write position and a wrapped flag;
  - it is proved to hold the newest `min(adds, capacity)` results, and to read them back newest first.

Shared modules:
- `Bytes`: little-endian integers;
- `Decimal`: Go's base-10 integer formatting and its inverse;
- `Wrappers`: `Option` and `Result`.

## Model

| member | source | states |
|---|---|---|
| BinlogJson.ReadInt | go/mysql/binlog/binlog_json.go:293-303 | Succeeds exactly when 2 (small) or 4 (large) bytes remain at `pos`. The value is the little-endian reading of those bytes, so it is below 2^16 or 2^32, and the position advances by 2 or 4. Otherwise the result is the out-of-bounds error. |
| BinlogJson.LengthEnd | go/mysql/binlog/binlog_json.go:308-321 | The length ends just past the first byte at or after `pos` whose high bit is clear, and every byte before it has its high bit set. Its only error is out of bounds. |
| BinlogJson.LengthEndFails | go/mysql/binlog/binlog_json.go:308-321 | `LengthEnd` fails exactly when every byte from `pos` to the end has its high bit set. |
| BinlogJson.VarLength | go/mysql/binlog/binlog_json.go:308-324 | Fails exactly when `LengthEnd` fails, and then with the out-of-bounds error. Otherwise the returned position is where `LengthEnd` says the length ends. The value is the 64-bit word the ORed groups build, read as a signed `int`, so it lies in [-2^63, 2^63). |
| BinlogJson.OneByteLength | go/mysql/binlog/binlog_json.go:308-324 | A byte below 128 is a whole length: its value, and the position after it. |
| BinlogJson.LengthBytesGroups | go/mysql/binlog/binlog_json.go:308-324 | The seven-bit groups of a length written the MySQL way (`LengthBytes`: low group first, high bit on every byte but the last) add up to that length. |
| BinlogJson.LengthBytesEnd | go/mysql/binlog/binlog_json.go:308-321 | The end of a length written that way is found just after its last byte. |
| BinlogJson.LengthBytesSize | go/mysql/binlog/binlog_json.go:308-324 | A length below `128^m` is written in at most `m` bytes. |
| BinlogJson.LengthRoundTrip | go/mysql/binlog/binlog_json.go:308-324 | Every length below 2^63, written the MySQL way, reads back as itself, with the position just after it. |
| BinlogJson.Int64 | go/mysql/binlog/binlog_json.go:315 | `int` on a 64-bit word: the value lies in [-2^63, 2^63) and is the word itself or the word minus 2^64. |
| BinlogJson.BitsAreGroups | go/mysql/binlog/binlog_json.go:312-320 | With at most nine bytes, no group is shifted to bit 64 or beyond, and the groups do not overlap. So the ORed word is the sum of `(b_i & 0x7f) * 128^i`, and it is below `128^n`. |
| BinlogJson.VarLengthIsGroupSum | go/mysql/binlog/binlog_json.go:308-324 | A length of at most nine bytes decodes to the plain sum of `(b_i & 0x7f) << 7i` over exactly the bytes consumed, which is never negative. |
| BinlogJson.DroppedGroups | go/mysql/binlog/binlog_json.go:312-315 | A group whose shift count `7*idx` (a byte, so taken mod 256) is 64 or more adds nothing to the word, and neither does a zero group. |
| BinlogJson.LongLengthReadsZero | go/mysql/binlog/binlog_json.go:308-324 | `0x80` ten times, then `0x02`: the group at bit 70 is shifted out of the 64-bit word, so the length is 0 and the position is 12. |
| BinlogJson.LongLengthDropsHighGroups | go/mysql/binlog/binlog_json.go:507-510 | A string tag with that length decodes to the empty string, not to an out-of-bounds error. |
| BinlogJson.ReadVariableLength | go/mysql/binlog/binlog_json.go:308-324 | The loop, with its byte counter `idx` wrapping at 256 and shifts of 64 or more dropping the group, computes `VarLength`, including its error. |
| BinlogJson.ToSigned | go/mysql/binlog/binlog_json.go:404-420 | The `int16`/`int32`/`int64` conversion of an unsigned value of `size` bytes is its two's-complement reading. It lies in the signed range, and is the value itself or the value minus `256^size`. |
| BinlogJson.ReadLittleEndian | go/mysql/binlog/binlog_json.go:398-403 | `binparserInt`'s accumulation loop gives the little-endian value of the `size` bytes at `pos`. It gives the out-of-bounds error when they run past the end. |
| BinlogJson.ParseInt | go/mysql/binlog/binlog_json.go:398-432 | `binparserInt` reads `binaryIntSizes[typ]` bytes, renders them with the tag's width and signedness, and rejects a tag outside the table. It equals `IntNode`. |
| BinlogJson.IntNodeReadsBack | go/mysql/binlog/binlog_json.go:398-424 | For every signed and unsigned integer tag, the decimal text produced parses back to the integer the bytes denote (two's complement for signed tags). |
| BinlogJson.Int16AllOnesIsMinusOne | go/mysql/binlog/binlog_json.go:404-407 | An int16 with bytes FF FF renders as "-1". |
| Decimal.DecimalRoundTrip | go/mysql/binlog/binlog_json.go:404-422 | The base-10 text `strconv.FormatInt`/`FormatUint` gives for any integer reads back as that integer. |
| BinlogJson.LiteralRoundTrip | go/mysql/binlog/binlog_json.go:434-447 | For `LiteralNode`: bytes 0, 1 and 2 decode to null, true and false. Each literal decodes from its own byte and no other. Any byte above 2 is an error. |
| BinlogJson.ParseString | go/mysql/binlog/binlog_json.go:507-510 | The string is a variable-length size followed by that many bytes, sliced from `data` and the `spare` bytes after it. A negative size, or one reaching past the capacity, is the out-of-bounds error. Equals `StringNode`. |
| BinlogJson.StringNode | go/mysql/binlog/binlog_json.go:507-510 | Succeeds exactly when the size reads, is not negative, and the string ends within the capacity (`data` then `spare`). The string is then exactly the `size` bytes after the size. Its only error is out of bounds. |
| BinlogJson.StringRoundTrip | go/mysql/binlog/binlog_json.go:507-510 | Any string shorter than 2^63 bytes, written as its tag, its length (`LengthBytes`) and its bytes, decodes to itself, whatever bytes follow it. |
| BinlogJson.OpaqueNode | go/mysql/binlog/binlog_json.go:451-505 | Fails, always out of bounds, exactly when there is no type byte, or the type is a date, time, datetime or decimal and `data` and `spare` together are shorter than 11 bytes. Those types decode the little-endian word sliced from bytes 3..11 of `data` then `spare` (a decimal keeps the bytes). Blob types give a blob, BIT gives a bit value, and every other type gives an opaque value, each holding the bytes of `data` after the type byte. |
| BinlogJson.DateRoundTrip | go/mysql/binlog/binlog_json.go:456-464 | Packing a year, month (< 13) and day (< 32) with year*13+month below 2^17 and decoding gives them back. |
| BinlogJson.TimeRoundTrip | go/mysql/binlog/binlog_json.go:465-473 | Packing an hour (< 1024), minute, second (< 64) and microseconds (< 2^24) and decoding gives them back. |
| BinlogJson.DateTimeRoundTrip | go/mysql/binlog/binlog_json.go:474-486 | The same for a datetime, whose hour field is only 5 bits (< 32). |
| BinlogJson.OpaqueDateRoundTrip | go/mysql/binlog/binlog_json.go:451-464 | A packed date, stored as tag, column type, length 8 and the word in little-endian order, decodes to its fields. |
| BinlogJson.OpaqueDateTimeRoundTrip | go/mysql/binlog/binlog_json.go:451-486 | The same for a packed datetime under each of the four datetime and timestamp column types. |
| BinlogJson.IsInline | go/mysql/binlog/binlog_json.go:270-284 | A value sits in its entry exactly when it is a literal or an integer whose width fits the entry: 2 bytes in a small document, 4 in a large one. |
| BinlogJson.Node | go/mysql/binlog/binlog_json.go:326-352 | The result is the "invalid json type" error for the tag exactly when the tag has no parser (13, 14 and 16 up). Such an error, wherever it comes from in a nested document, always names a tag without a parser. |
| BinlogJson.ParseNode | go/mysql/binlog/binlog_json.go:345-352 | Dispatching on the tag to the parsing loops computes `Node`. |
| BinlogJson.ParseJsonDispatch | go/mysql/binlog/binlog_json.go:61-73 | For `ParseJson`: empty input is JSON null. An unknown first byte is "invalid json type" for that byte. A known first byte is parsed as that tag from position 1 and never gives that error for it. |
| BinlogJson.ParseBinaryJson | go/mysql/binlog/binlog_json.go:61-73 | `ParseBinaryJSON` computes `ParseJson`. |
| BinlogJson.Element | go/mysql/binlog/binlog_json.go:355-384 | A decoded entry is always followed by the next entry at `pos + 1 + 2` (small) or `pos + 1 + 4` (large), whether its value is inline or at an offset. Invalid-type errors name unknown tags. |
| BinlogJson.ElementOffsetChecked | go/mysql/binlog/binlog_json.go:371-383 | An offset entry pointing at or past the end of the document is the "unable to decode element" error. So is an offset of 0 whose type is a container already open on the same bytes (see Findings). Any other offset entry decodes as the node at that offset, read from position 1, with its success and value. |
| BinlogJson.ParseElement | go/mysql/binlog/binlog_json.go:355-384 | `binparserElement` (with the re-entry correction of Findings) computes `Element`. |
| BinlogJson.Elements | go/mysql/binlog/binlog_json.go:521-527 | A successful read yields exactly `count` values. |
| BinlogJson.ElementsSpan | go/mysql/binlog/binlog_json.go:514-530 | The `i`-th decoded value is the entry at `pos + i * (1 + width)`: the stored order, at a fixed stride. |
| BinlogJson.ParseElements | go/mysql/binlog/binlog_json.go:521-527 | The append loop over the value entries computes `Elements`. |
| BinlogJson.ArrayNode | go/mysql/binlog/binlog_json.go:514-530 | A decoded array node is an array. |
| BinlogJson.ParseArray | go/mysql/binlog/binlog_json.go:514-530 | `binparserArray` reads the count, skips the size, and then reads the entries. It equals `ArrayNode`. |
| BinlogJson.KeyEntry | go/mysql/binlog/binlog_json.go:546-554 | A key entry is an offset of the document's width followed by a length that is always 16-bit. The next entry follows at `pos + width + 2`. The only errors are running out of bytes and a key starting at or past the end, or ending past it. |
| BinlogJson.ReadKeyEntry | go/mysql/binlog/binlog_json.go:546-554 | One iteration of the key loop computes `KeyEntry`. |
| BinlogJson.Keys | go/mysql/binlog/binlog_json.go:542-555 | Exactly `count` keys. The value entries start right after the `count` key entries. |
| BinlogJson.ParseKeys | go/mysql/binlog/binlog_json.go:542-555 | The key loop computes `Keys`. |
| BinlogJson.Zip | go/mysql/binlog/binlog_json.go:561-567 | The `i`-th member pairs the `i`-th key with the `i`-th value, for exactly as many members as keys. |
| BinlogJson.PairUp | go/mysql/binlog/binlog_json.go:561-567 | The `object.Add` loop builds the members of `Zip`. |
| BinlogJson.ObjectNode | go/mysql/binlog/binlog_json.go:534-570 | A decoded object node is an object. Invalid-type errors name unknown tags. |
| BinlogJson.ParseObject | go/mysql/binlog/binlog_json.go:534-570 | `binparserObject` reads the count and size, then all keys, then all values, and pairs them. It equals `ObjectNode`. |
| BinlogJson.OffsetTargetAsWritten | go/mysql/binlog/binlog_json.go:371-377 | As written, an offset entry hands the nested decoder `data[offset:]` at position 1, no longer than `data`. |
| BinlogJson.OffsetZeroRecursesAsWritten | go/mysql/binlog/binlog_json.go:371-377 | On `SelfNestedArray`, the first element's nested call, as written, gets the same tag, data and position as the top-level call. |
| BinlogJson.OffsetZeroRejected | go/mysql/binlog/binlog_json.go:371-377 | With re-entry rejected, the same document decodes to the "unable to decode element" error. |
| BinlogJson.OffsetZeroScalar | go/mysql/binlog/binlog_json.go:371-383 | A scalar at offset 0 is read as written: `[2, 1, 0, 8, 0, 12, 0, 0]` is an array holding the one-byte string `[0]`. |
| BinlogJson.OffsetZeroOtherContainer | go/mysql/binlog/binlog_json.go:371-383 | A container at offset 0 whose type is not yet open is read as written: a small array holding its own bytes read as a large array. |
| BinlogJson.DiffEntry | go/mysql/binlog/binlog_json.go:160-230 | An operation byte above 2 is "invalid JSON diff operation" for that byte, and nothing else is. A decoded diff advances the position and stays inside the data. It has a value exactly when it is not a REMOVE. |
| BinlogJson.DiffPathAt | go/mysql/binlog/binlog_json.go:198-230 | After the operation byte, a diff keeps that operation, advances the position within the data, and has a value exactly when it is not a REMOVE. |
| BinlogJson.DiffValueAt | go/mysql/binlog/binlog_json.go:202-230 | The diff keeps the operation and path it was given. REMOVE reads nothing more. The others read a length-prefixed value that must end within the diff. The value is decoded with the rest of the diff as its `spare` bytes. A decoding error is wrapped with the path, except a panic (out of bounds), which is not wrapped. |
| BinlogJson.ReadDiffEntry | go/mysql/binlog/binlog_json.go:160-230 | One iteration of the diff loop, up to the text it writes, computes `DiffEntry`. |
| BinlogJson.ReadDiffValue | go/mysql/binlog/binlog_json.go:211-230 | The value part of one iteration computes `DiffValueAt`. |
| BinlogJson.DiffOps | go/mysql/binlog/binlog_json.go:160-232 | In every decoded diff list, a diff carries a value exactly when it is not a REMOVE. |
| BinlogJson.RenderShape | go/mysql/binlog/binlog_json.go:160-232 | For `Render`: `k` diffs render as `k` nested functions with the column placeholder exactly once. The outermost function is the last diff's, and the expression ends by closing it. |
| BinlogJson.RemoveHasNoValue | go/mysql/binlog/binlog_json.go:203-207 | A diff's rendering contains a SQL value exactly when it is not a REMOVE. |
| BinlogJson.NullDiff | go/mysql/binlog/binlog_json.go:174-181 | Data that is a JSON null literal, whose first byte is no diff operation, renders as the SQL of null. |
| BinlogJson.ParseBinaryJsonDiff | go/mysql/binlog/binlog_json.go:123-235 | The loop that resets the buffer and wraps the previous text in the next function computes `DiffSql`. Empty data is the empty expression. An unknown operation is an error unless the whole data is JSON null; when that null check itself runs past the end, the result is the out-of-bounds error. |
| BinlogJson.CapacityReadsOn | go/mysql/binlog/binlog_json.go:218-225 | `[0, 1, '$', 2, 12, 3, 2, 1, '$']`: a REPLACE whose two-byte value is a string of size 3. The string runs past the value into the next diff, which the value's capacity still reaches. So the result is REPLACE with the string `[2, 1, '$']`, wrapped in the REMOVE that follows, and not an error. |
| BinlogJson.NullCheckOutOfBounds | go/mysql/binlog/binlog_json.go:180-187 | `[5]`: no operation, and an int16 tag with no bytes after it. The null check panics, so the result is out of bounds, not the operation error. |
| BinlogJson.WrapDiff | go/mysql/binlog/binlog_json.go:162-229 | One iteration's text is the function name, then the previous expression (or the column placeholder for the first diff), the quoted path, the value for REPLACE and INSERT, and `)`. |
| Highway.UpdateAllAppend | go/vt/vthash/highway/highwayhash.go:122-143 | Mixing in whole blocks `a` and then `b` equals mixing in `a + b`. This is why the pieces a digest is written in do not matter. |
| Highway.WholeBlocks | go/vt/vthash/highway/highwayhash.go:65 | `n & ^(Size-1)` is the largest multiple of 32 not above `n`. |
| Highway.Update | go/vt/vthash/highway/highwayhash.go:136 | `update` on a multiple of 32 bytes leaves the lanes the blocks give when mixed in one after the other. |
| Highway.AddLengthLanes | go/vt/vthash/highway/highwayhash.go:163-166 | Lanes 0..3 grow by `(offset << 32) + offset` modulo 2^64. The other lanes are unchanged. |
| Highway.RotateLanes | go/vt/vthash/highway/highwayhash.go:167-175 | Each 32-bit half of lanes 4..7 is rotated left by `offset`. The other lanes are unchanged. |
| Highway.RotateHalvesIndependent | go/vt/vthash/highway/highwayhash.go:167-175 | After the rotation, the high and low halves of a v1 lane are each exactly the rotation of the old half. No bit crosses between them. |
| Highway.MixLengthInto | go/vt/vthash/highway/highwayhash.go:163-175 | The two lane loops together compute `MixLength`. |
| Highway.PadBlockLong | go/vt/vthash/highway/highwayhash.go:177-182 | For an offset of 16 or more, the block is the whole 4-byte groups, then zeros, then the last four bytes at 28..31. |
| Highway.PadBlockShort | go/vt/vthash/highway/highwayhash.go:177-188 | For an offset below 16 that is not a multiple of 4, the block is the whole groups, then zeros, then the first, middle and last byte of the partial group at 16..18, then zeros. |
| Highway.PadBlockAligned | go/vt/vthash/highway/highwayhash.go:177-183 | For an offset below 16 that is a multiple of 4, the block is the bytes and then zeros. |
| Highway.PackThreeBytes | go/vt/vthash/highway/highwayhash.go:184-187 | The `uint32` the three tail bytes are summed into is written as exactly those bytes and a 0: the shifted bytes never overlap. |
| Highway.GroupsBlock | go/vt/vthash/highway/highwayhash.go:162-180 | A zeroed block with the first `remain` bytes of the buffer copied in front. |
| Highway.LongTailBlock | go/vt/vthash/highway/highwayhash.go:180-182 | The block built for a tail of 16 bytes or more is the `PadBlockLong` layout. |
| Highway.ShortTailBlock | go/vt/vthash/highway/highwayhash.go:180-188 | The block built for a short unaligned tail is the `PadBlockShort` layout. |
| Highway.PaddedBlock | go/vt/vthash/highway/highwayhash.go:177-188 | The block built is `PadBlock` of the buffer in each of the three cases. |
| Highway.PadBlockReadsPrefix | go/vt/vthash/highway/highwayhash.go:177-188 | The padded block depends only on the first `offset` bytes. Stale bytes left in a digest's buffer never reach the state. |
| Highway.HashBuffer | go/vt/vthash/highway/highwayhash.go:161-190 | `hashBuffer` leaves the lanes as the length-mixed state with the padded block mixed in. |
| Highway.MixTailOfBuffer | go/vt/vthash/highway/highwayhash.go:153-155 | `hashBuffer` on any buffer starting with the tail gives the same state as on the tail alone. |
| Highway.HashTail | go/vt/vthash/highway/highwayhash.go:69-73 | An empty tail leaves the state alone. A non-empty one is mixed in by `hashBuffer`. |
| Highway.Initialize | go/vt/vthash/highway/highwayhash.go:64 | The state array takes the lanes `initialize` gives for the key. |
| Highway.HashOf | go/vt/vthash/highway/highwayhash.go:59-77 | The checksum is exactly `size` bytes long. |
| Highway.Checksum | go/vt/vthash/highway/highwayhash.go:59-77 | A key that is not 32 bytes long is the key-size error. Otherwise the result is `HashOf`: the whole blocks through `update`, the rest through `hashBuffer`, then `finalize`. |
| Highway.FinishTail | go/vt/vthash/highway/highwayhash.go:69-76 | The tail, copied into a zeroed block and mixed in, then finalized, gives the first `size` bytes of `finalize` of `MixTail`. |
| Highway.Sum | go/vt/vthash/highway/highwayhash.go:59-77 | The 32-byte checksum, or the key-size error for a key that is not 32 bytes. |
| Highway.Sum128 | go/vt/vthash/highway/highwayhash.go:81-99 | The 16-byte checksum, or the key-size error for a key that is not 32 bytes. |
| Highway.Digest.New | go/vt/vthash/highway/highwayhash.go:43-47 | A valid 32-byte digest for the key with nothing written. |
| Highway.Digest.New128 | go/vt/vthash/highway/highwayhash.go:51-55 | A valid 16-byte digest for the key with nothing written. |
| Highway.Digest.Reset | go/vt/vthash/highway/highwayhash.go:113-116 | Offset 0, nothing written, and the state initialized from the key. |
| Highway.Digest.Write | go/vt/vthash/highway/highwayhash.go:122-143 | Returns `len(p)` and no error. The buffering invariant is kept: the whole blocks mixed in since `Reset` followed by `buffer[:offset]` are everything written, `update` only ever sees multiples of 32 bytes, and `offset < 32`. |
| Highway.Digest.WriteAligned | go/vt/vthash/highway/highwayhash.go:135-141 | With nothing buffered, whole blocks go to the state and the rest to the buffer, keeping the invariant. |
| Highway.Digest.Buffer | go/vt/vthash/highway/highwayhash.go:126-128 | Bytes that do not complete a block are appended to the buffer, and the state is not touched. |
| Highway.Digest.Flush | go/vt/vthash/highway/highwayhash.go:130-133 | Completing the buffered block mixes it into the state and empties the buffer. |
| Highway.Digest.Absorb | go/vt/vthash/highway/highwayhash.go:135-138 | Whole blocks written with nothing buffered go straight into the state. |
| Highway.Digest.WriteUint16 | go/vt/vthash/highway/highwayhash.go:145-149 | Writes exactly the two little-endian bytes of `x`, which read back as `x`. |
| Bytes.LittleEndianRoundTrip | go/vt/vthash/highway/highwayhash.go:145-149 | Writing a value as `n` little-endian bytes and reading them back gives the value whenever it fits. |
| Highway.Digest.WriteString | go/vt/vthash/highway/highwayhash.go:118-120 | Writes the string's bytes, returning their count and no error. |
| Highway.Digest.Size | go/vt/vthash/highway/highwayhash.go:109 | 32 or 16, and `Sum` appends exactly that many bytes. |
| Highway.Digest.BlockSize | go/vt/vthash/highway/highwayhash.go:111 | 32, the unit in which the state is fed and that the offset stays below. |
| Highway.Digest.Sum | go/vt/vthash/highway/highwayhash.go:151-159 | Appends to `b` the checksum of everything written since `Reset`, however it was split into writes. It equals the one-shot checksum of the concatenation, and the digest is left unchanged. |
| Highway.HashOfWhole | go/vt/vthash/highway/highwayhash.go:151-159 | The checksum of whole blocks followed by a short tail is the tail mixed into the compressed blocks. This is the same split the one-shot `Sum` makes. |
| Highway.BlocksOfWritten | go/vt/vthash/highway/highwayhash.go:65-68 | For whole blocks followed by less than a block, the one-shot split point is exactly the end of the whole blocks. |
| Throttler.Newest | go/vt/throttler/result_test.go:141-156 | What a ring of a given capacity holds after a history of adds: `min(adds, capacity)` entries, the `k`-th being the `k`-th newest add. |
| Throttler.NewestAdd | go/vt/throttler/result_test.go:148-156 | One more add puts the new result in front and, once the ring is full, drops the oldest. |
| Throttler.StoredAdd | go/vt/throttler/result_test.go:153-156 | Overwriting the slot at the write position and advancing it with wrap-around keeps every slot holding the right historical entry. |
| Throttler.ResultRing.constructor | go/vt/throttler/result_test.go:140 | An empty ring of the given capacity. |
| Throttler.ResultRing.Add | go/vt/throttler/result_test.go:143-154 | The history gains the result, and the contents become the result followed by the old contents, minus the oldest when full. |
| Throttler.RingScenario | go/vt/throttler/result_test.go:135-157 | Capacity 2: after one add the ring reads `[r1]`, after two `[r2, r1]`, and after the third it has wrapped to `[r3, r2]`. |
| Throttler.ResultRing.LatestValues | go/vt/throttler/result_test.go:144-156 | Returns the contents newest first, of length `min(adds, capacity)`. |
| TxConn.ResetTxState | go/vt/vtgate/tx_conn_test.go:1133-1168 | The session leaves its transaction and access modes. A session on reserved connections keeps all three lists of shard sessions. Any other session loses them. Warnings are kept. |
| TxConn.NewId | go/vt/vtgate/tx_conn_test.go:383-407 | A tablet's new reserved id is above every id it handed out before. No other tablet's ids change. |
| TxConn.Joined | go/vt/vtgate/tx_conn_test.go:1444-1481 | No errors joins to none, and a single error to itself. |
| TxConn.EndTransaction | go/vt/vtgate/tx_conn_test.go:383-407 | A shard session without a transaction sends nothing. On success the transaction id is 0, and a reserved connection is kept (under a new id) exactly when there was one. On failure the shard session is unchanged. |
| TxConn.Notify | go/vt/vtgate/tx_conn_test.go:957-973 | A two-phase message is always sent to the participant and leaves its shard session unchanged. |
| TxConn.FanOut | go/vt/vtgate/tx_conn_test.go:1444-1481 | Every shard session is visited, in order, whatever earlier ones returned, and keeps its target. |
| TxConn.CommitInOrder | go/vt/vtgate/tx_conn_test.go:640-672 | On failure, `failedAt` is the index of the failing shard session. On success it is their number. Targets are kept. |
| TxConn.CommitInOrderStops | go/vt/vtgate/tx_conn_test.go:640-672 | After the first failure in the normal class, the later shard sessions are not committed and are passed through as they were. |
| TxConn.ShownShards | go/vt/vtgate/tx_conn_test.go:172-278 | The warning names the committed shards in order. At most 16 are named, and more than 16 adds a trailing "...". |
| TxConn.AfterRelease | go/vt/vtgate/tx_conn_test.go:409-414 | Outside a transaction and reserved mode, nothing happens. Otherwise the session ends up with no transaction, no access modes and no shard sessions. Warnings, reserved mode and the counter are kept. |
| TxConn.AfterReleaseAll | go/vt/vtgate/tx_conn_test.go:1513-1556 | As `Release`, and the session also leaves reserved-connection mode. |
| TxConn.AfterRollback | go/vt/vtgate/tx_conn_test.go:1513-1556 | Outside a transaction, nothing happens. Otherwise the session leaves its transaction and access modes. The counter is kept. |
| TxConn.AfterCommit | go/vt/vtgate/tx_conn_test.go:1513-1556 | Outside a transaction, nothing happens. Otherwise the session ends with no transaction and no access modes, whichever way the commit went. |
| TxConn.AfterBegin | go/vt/vtgate/tx_conn_test.go:49-69 | On success the session is in a transaction and has the requested access modes. Outside a transaction no tablet is called. A failure is exactly the failure of committing the open transaction. |
| TxConn.ParseInt64 | go/vt/vtgate/tx_conn_test.go:1209-1230 | A parsed transaction id lies in the 64-bit signed range. |
| TxConn.ParseDtid | go/vt/vtgate/tx_conn_test.go:1288-1308 | Every failure to read a distributed transaction id is the invalid-dtid error for that id. |
| TxConn.AfterResolveTx | go/vt/vtgate/tx_conn_test.go:1288-1330 | A malformed dtid, or an UNKNOWN state, fails without calling any tablet. |
| TxConn.AfterResolve | go/vt/vtgate/tx_conn_test.go:1278-1286 | A failing UnresolvedTransactions call is the error itself, not a resolve count. "failed to resolve n out of m" has `0 < n <= m`, where `m` is the number of unresolved transactions. |
| TxConn.Session.constructor | go/vt/vtgate/tx_conn_test.go:64 | A session holding the given state. |
| TxConn.Session.ResetTx | go/vt/vtgate/tx_conn_test.go:1133-1168 | The session changes in place as `ResetTxState` describes. |
| TxConn.Sandbox.Receive | go/vt/vtgate/tx_conn_test.go:1170-1199 | The call is logged. A failure scripted for it fires once and is used up. |
| TxConn.Sandbox.NewReservedId | go/vt/vtgate/tx_conn_test.go:383-407 | Issues the tablet's next reserved id, as `NewId` does. |
| TxConn.Sandbox.UnresolvedTransactions | go/vt/vtgate/tx_conn_test.go:1209-1230 | Logs the call and returns the transactions the tablet reports. |
| TxConn.TxConn.EndTx | go/vt/vtgate/tx_conn_test.go:383-407 | Changes the tablets as `EndTransaction` describes and returns its error and shard session. |
| TxConn.TxConn.ApplyAction | go/vt/vtgate/tx_conn_test.go:409-414 | One per-shard action changes the tablets as `Apply` describes. |
| TxConn.TxConn.NotifyShard | go/vt/vtgate/tx_conn_test.go:957-973 | One two-phase message changes the tablets as `Notify` describes. |
| TxConn.TxConn.RunSessions | go/vt/vtgate/tx_conn_test.go:1444-1481 | `runSessions` changes the tablets and returns errors and shard sessions as `FanOut` describes. |
| TxConn.TxConn.RunTargets | go/vt/vtgate/tx_conn_test.go:1483-1511 | `runTargets` changes the tablets and returns errors as `CallEach` describes. |
| TxConn.TxConn.CommitShardsInOrder | go/vt/vtgate/tx_conn_test.go:640-672 | The loop that leaves at the first failure ends as `CommitInOrder` describes. |
| TxConn.TxConn.Release | go/vt/vtgate/tx_conn_test.go:409-414 | Session, tablets and counter end as `AfterRelease` describes. |
| TxConn.TxConn.ReleaseAll | go/vt/vtgate/tx_conn_test.go:1513-1556 | Session, tablets and counter end as `AfterReleaseAll` describes. |
| TxConn.TxConn.RunRegrouped | go/vt/vtgate/tx_conn_test.go:579-604 | The fan-out over pre, normal and post shard sessions puts each back in its own class. |
| TxConn.TxConn.Rollback | go/vt/vtgate/tx_conn_test.go:1117-1199 | Session, tablets and counter end as `AfterRollback` describes. |
| TxConn.TxConn.CommitNormal | go/vt/vtgate/tx_conn_test.go:607-714 | Session, tablets and counter end as `AfterCommitNormal` describes. |
| TxConn.TxConn.CommitPost | go/vt/vtgate/tx_conn_test.go:674-714 | The post class ends as `AfterCommitPost` describes. |
| TxConn.TxConn.CommitNormalFailed | go/vt/vtgate/tx_conn_test.go:150-169 | After a normal-class failure with shards already committed, the NonAtomicCommit warning is recorded and counted, then everything is released. |
| TxConn.TxConn.RollbackDecided | go/vt/vtgate/tx_conn_test.go:1009-1033 | The two-phase rollback ends as `RollbackPrepared2PC` describes. |
| TxConn.TxConn.Commit2PC | go/vt/vtgate/tx_conn_test.go:957-1115 | Session, tablets and counter end as `AfterCommit2PC` describes. |
| TxConn.TxConn.Commit | go/vt/vtgate/tx_conn_test.go:280-331 | Session, tablets and counter end as `AfterCommit` describes. |
| TxConn.TxConn.Begin | go/vt/vtgate/tx_conn_test.go:49-69 | Session, tablets and counter end as `AfterBegin` describes. |
| TxConn.TxConn.ConcludeTx | go/vt/vtgate/tx_conn_test.go:1416-1442 | Sends the conclusion to the metadata manager, as `Conclude` describes. |
| TxConn.TxConn.RollbackAndConclude | go/vt/vtgate/tx_conn_test.go:1232-1253 | RollbackPrepared to every participant, then the conclusion unless one failed, as `RollbackParticipants` describes. |
| TxConn.TxConn.ResolveTx | go/vt/vtgate/tx_conn_test.go:1209-1276 | Resolving one transaction ends as `AfterResolveTx` describes. |
| TxConn.TxConn.ResolveTransactions | go/vt/vtgate/tx_conn_test.go:1209-1442 | The resolve loop, counting failures, ends as `AfterResolve` describes. |
| TxConnProperties.FanOutTrace | go/vt/vtgate/tx_conn_test.go:1444-1481 | A fan-out sends exactly one call per shard session that needs one, in order. Only newer reserved ids are handed out. Two-phase messages leave the shard sessions unchanged. |
| TxConnProperties.FanOutFaults | go/vt/vtgate/tx_conn_test.go:1444-1481 | Each scripted failure among a fan-out's calls fires once and is used up. The fan-out returns an error exactly when one of its calls had a failure scripted. |
| TxConnProperties.CallEachAccounting | go/vt/vtgate/tx_conn_test.go:1483-1511 | `runTargets` sends one call per target, in order, uses up exactly their scripted failures, and fails exactly when one of them had a failure scripted. |
| TxConnProperties.NotifyUnscripted | go/vt/vtgate/tx_conn_test.go:957-973 | A two-phase message to every participant, with nothing scripted, sends one call each, in order. Nothing fails and the sessions are unchanged. |
| TxConnProperties.EndTransactionNewId | go/vt/vtgate/tx_conn_test.go:383-407 | A reserved connection whose transaction ended comes back under an id newer than any its tablet had handed out. |
| TxConnProperties.FanOutEnds | go/vt/vtgate/tx_conn_test.go:383-407 | Committing or rolling back with nothing scripted ends every transaction. It keeps every reserved connection under a new id and changes nothing without a transaction. |
| TxConnProperties.ReleaseCalls | go/vt/vtgate/tx_conn_test.go:409-414 | Release goes exactly to the shard sessions holding a transaction or a reserved connection, and fails exactly when one of those calls had a failure scripted. |
| TxConnProperties.ReleaseOnlyReleases | go/vt/vtgate/tx_conn_test.go:607-638 | Release never sends anything but Release calls. |
| TxConnProperties.InOrderUnscripted | go/vt/vtgate/tx_conn_test.go:716-812 | With nothing scripted to fail, the in-order normal class commits exactly what a fan-out would. |
| TxConnProperties.CommitSucceeds | go/vt/vtgate/tx_conn_test.go:280-510 | A commit with nothing scripted to fail sends one Commit per shard session holding a transaction: the pre class, then normal, then post. Reserved-only shard sessions get no Commit. The session is emptied or, on reserved connections, keeps every shard session with no transaction and a new reserved id. Warnings and counter are unchanged, as in one-participant two-phase commit. |
| TxConnProperties.NormalPrefixFails | go/vt/vtgate/tx_conn_test.go:640-672 | Up to the first scripted failure, the normal class sends its Commits in order, and the failing shard's error is the result. |
| TxConnProperties.NormalClassFailsAt | go/vt/vtgate/tx_conn_test.go:640-672 | The normal class stops at the first failing shard session. It sends the Commits up to and including that one, and returns its error. |
| TxConnProperties.CommitFailsOnce | go/vt/vtgate/tx_conn_test.go:71-170 | A shard session whose Commit is scripted to fail sends the call and returns that shard's error. |
| TxConnProperties.CommitNormalAfterNormalFailure | go/vt/vtgate/tx_conn_test.go:150-169 | After a normal-class failure, the session is released. If shards had already committed, the NonAtomicCommit warning naming them is recorded first and counted. |
| TxConnProperties.NormalCommitFails | go/vt/vtgate/tx_conn_test.go:71-170 | The first failure in the normal class: the commits before it are sent in order and nothing after, its error is returned, and only Release calls follow. The session is emptied except its warnings. These gain one NonAtomicCommit warning naming the committed shards, and the counter grows by one, exactly when some shard had already committed. |
| TxConnProperties.PreCommitFails | go/vt/vtgate/tx_conn_test.go:607-638 | A pre-class failure: no normal or post shard is committed, only Release calls follow, and the session is emptied with no new warning. |
| TxConnProperties.PostCommitFails | go/vt/vtgate/tx_conn_test.go:674-714 | A post-class failure: every class was committed and the commit still succeeds. Only Release calls follow, the session gains exactly one post-operation warning, and the counter is unchanged. |
| TxConnProperties.NormalReachesPost | go/vt/vtgate/tx_conn_test.go:716-812 | With nothing scripted in the pre and normal classes, both commit fully and the commit goes on to the post class. |
| TxConnProperties.PostClassFails | go/vt/vtgate/tx_conn_test.go:674-714 | A post-class failure records one PostCommitFailed warning, keeps the counter, and releases a session on reserved connections. |
| TxConnProperties.BeginCommitsOpen | go/vt/vtgate/tx_conn_test.go:64-68 | Begin on an open transaction first commits it, one Commit per shard session holding a transaction. It then leaves the session in a new transaction with no shard sessions. |
| TxConnProperties.RollbackPreparedClean | go/vt/vtgate/tx_conn_test.go:1009-1033 | The two-phase rollback sends SetRollback to the metadata manager, then RollbackPrepared to every resource manager, then the conclusion. |
| TxConnProperties.CommitUsesTwoPC | go/vt/vtgate/tx_conn_test.go:957-973 | Under two-phase mode, from the session or the deployment, a commit is the two-phase protocol followed by `ResetTx`. |
| TxConnProperties.TwoPCProtocol | go/vt/vtgate/tx_conn_test.go:957-973 | The protocol sends CreateTransaction, Prepare to each resource manager, StartCommit, CommitPrepared to each resource manager, and then the conclusion. |
| TxConnProperties.TwoPCCommits | go/vt/vtgate/tx_conn_test.go:957-973 | A two-phase commit with nothing scripted to fail (the conclusion aside) sends exactly that sequence, succeeds, and resets the session's transaction. |
| TxConnProperties.TwoPCCommitPreparedClean | go/vt/vtgate/tx_conn_test.go:1097-1115 | Once the commit is decided, a failing conclusion does not fail the commit. |
| TxConnProperties.TwoPCCreateFails | go/vt/vtgate/tx_conn_test.go:987-1007 | A failing CreateTransaction is followed by a Rollback to every shard session and nothing else. Its error is returned. |
| TxConnProperties.TwoPCPrepareFails | go/vt/vtgate/tx_conn_test.go:1009-1033 | A failing Prepare is followed by SetRollback, RollbackPrepared to each resource manager and the conclusion. No StartCommit or CommitPrepared is sent, and an error is returned. |
| TxConnProperties.TwoPCStartCommitFails | go/vt/vtgate/tx_conn_test.go:1035-1058 | A definite StartCommit failure unwinds as a Prepare failure does, and returns that error. |
| TxConnProperties.TwoPCStartCommitUncertain | go/vt/vtgate/tx_conn_test.go:1060-1074 | An uncertain StartCommit failure sends nothing more (no SetRollback, no RollbackPrepared, no conclusion) and still returns the error. |
| TxConnProperties.TwoPCCommitPreparedFails | go/vt/vtgate/tx_conn_test.go:1077-1095 | A failing CommitPrepared returns an error, and the transaction is not concluded. |
| TxConnProperties.RollbackSucceeds | go/vt/vtgate/tx_conn_test.go:1117-1168 | A rollback with nothing scripted sends one Rollback per shard session holding a transaction. The session is emptied or, on reserved connections, keeps each shard session with no transaction and a new reserved id. |
| TxConnProperties.RollbackFails | go/vt/vtgate/tx_conn_test.go:1170-1199 | A failing rollback returns its error, then only Release calls follow. Every shard session is dropped and the session gains the rollback warning carrying that error. |
| TxConnProperties.ResolvePrepared | go/vt/vtgate/tx_conn_test.go:1209-1230 | A transaction in PREPARE gets SetRollback, then RollbackPrepared to each participant, then the conclusion, and each failing step skips the rest. |
| TxConnProperties.ResolveRolledBack | go/vt/vtgate/tx_conn_test.go:1232-1253 | A transaction in ROLLBACK gets RollbackPrepared to each participant, then the conclusion, and a failure skips the conclusion. |
| TxConnProperties.ResolveCommitted | go/vt/vtgate/tx_conn_test.go:1255-1276 | A transaction in COMMIT gets CommitPrepared to each participant, then the conclusion, and a failure skips the conclusion. |
| TxConnProperties.ResolveOne | go/vt/vtgate/tx_conn_test.go:1288-1442 | With one unresolved transaction, the result is "failed to resolve 1 out of 1" exactly when resolving it failed. |
| TxConnProperties.DtidRoundTrip | go/vt/vtgate/tx_conn_test.go:1209-1230 | An id `keyspace:shard:n` reads back as its metadata manager and transaction number. |
| TxConnProperties.DtidWithoutParts | go/vt/vtgate/tx_conn_test.go:1288-1308 | An id without colons, such as "abcd", is the invalid-dtid error. |
| TxConnProperties.NonAtomicMessageCut | go/vt/vtgate/tx_conn_test.go:172-278 | With shards named by their index, 16 committed shards are all listed. 17 are cut to "0, 1, …, 15, ...". |

## Left out

- Floating point: a JSON double keeps its 64 raw bits (`DoubleBits`). The `FormatFloat` rendering is not modelled.
- DECIMAL opaque values: the decimal decoder `CellValue` is not part of this model. A decimal keeps the eight bytes it would be given.
- The `%04d`-style text of dates and times: the decoded integer fields are kept and the text is not rendered.
- `json.Value.MarshalSQLTo` and the rest of the `json` package: a value's SQL form is one abstract piece, `Sql(value)`. The duplicate-key behaviour of `object.Add` is not modelled either; members are kept in stored order.
- The whole diff expression is a sequence of pieces (column placeholder, text, path, value), not bytes.
- BinlogJson.ArrayNode and BinlogJson.ObjectNode: their own contracts only state the kind of value. What they read is stated by the method each one is proved equal to, and by `ElementsSpan`, `Keys` and `Zip`.
- HighwayHash's `initialize`, `update` (per block) and `finalize` are not part of this model. They are function values, and nothing is proved about their arithmetic.
- The one-shot `Sum`/`Sum128` return an error value where the code panics on a bad key size.
- Highway.Digest.Reset: the buffer keeps its stale bytes, as in the code. `PadBlockReadsPrefix` shows they never matter.
- TxConn: the implementation file is not part of this model. The behaviour is the behaviour the unit tests assert, and everything else about it is left out.
- Concurrency: `runSessions` and `runTargets` run their shards one after the other, in list order. The goroutines, contexts and leak checks are left out.
- The `txProcessed` metrics depend on SQL classification that is not part of this model.
- Test plumbing is left out: the sandbox connections, health checks and topo resolver, and `ExecuteMultiShard` building the session.
- Error texts are kept as structured errors (`ShardError`, `Errors`, `ResolveFailed`, …), not as strings. The `vterrors` codes are left out. The NonAtomicCommit warning is the exception: it is built as text.
- A shard session's target is a keyspace and a shard name. The tablet type and the tablet alias are left out.
- The normal commit class is sequential and stops at the first failure, as the tests show. The warning's limit of 16 is only the length of the list of shards it names.
- A failure in the post commit class on a session with reserved connections releases that session. No test covers this case, so it follows the rollback-failure path.
- TxConn.AfterCommit2PC: its own contract only says the counter is unchanged for more than one participant. What the protocol sends is stated by the `TwoPC…` lemmas, for every single scripted failure the tests use.
- BinlogJson.VarLengthIsGroupSum: stated for lengths of at most nine bytes only. Past that, `DroppedGroups` and `LongLengthReadsZero` state what the 64-bit word keeps.
- Throttler.ResultRing.constructor: requires a capacity above 0. Go accepts 0 and then panics on the first `add` (an index into an empty slice); that panic is not modelled.
- The capacity of a document decoded on its own (a call of `ParseBinaryJSON` outside the diff decoder, and the diff data itself) is taken to be its length. Bytes that a caller's buffer holds beyond it are not part of this model.
- Result.String and the lag-record helpers of the throttler are left out.

## Findings

| source | as written | input that shows it | evidently intended | confidence | as-written member | corrected member |
|---|---|---|---|---|---|---|
| go/mysql/binlog/binlog_json.go:373 | An offset entry is rejected only when `offset >= len(data)`. An offset of 0 passes `data[0:]` and position 1 to `binparserNode`. For a container tag that is already being decoded on those bytes, these are the same arguments as the enclosing call. | `[2, 1, 0, 8, 0, 2, 0, 0]`: a small array with one element, a small array at offset 0. Decoding it, as written, re-enters itself on identical arguments and never ends (stack overflow). | A container entry that leads back to a container of the same type already open on the same bytes should be rejected like an offset past the end. Scalars, and other containers at offset 0, decode as written. | not executed | BinlogJson.OffsetZeroRecursesAsWritten | BinlogJson.OffsetZeroRejected |
