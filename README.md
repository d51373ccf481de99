# fseq encoder in Dafny

A verified model of a TypeScript library that writes fseq ("PSEQ") light
sequence files. The library is write-only. The model covers each of its
parts:

- **Fixed-width integer cells** (`src/uint.ts`, module `Uint`). Each cell is
  a number with a bit width and an overflow policy, wrap or clamp. Every
  arithmetic operation floors the number and brings it back into range.
- **Variable records** (`src/variable.ts`, module `Variables`). A record is
  a two-character identifier and a payload, prefixed by a clamped 16-bit
  length.
- **Sparse channel ranges** (`src/sparse.ts`, module `Sparse`). A range is a
  pair of Uint24 cells. Its `toBuffer` never returns.
- **The 32-byte header** (`src/header.ts`, module `Headers`). It is written
  field by field into a zero-filled buffer.
- **The file model** (`src/fseq.ts`, modules `Fseq`, `Channels` and
  `JsArrays`):
  - the compression setting;
  - frame buffers and the mapping from a channel number to a buffer offset;
  - the file's ordered lists of frames, variables and ranges, edited with
    JavaScript `splice` and `indexOf`;
  - serialisation of the whole file.
- **The colour-order table** (`src/color.ts`, module `Color`).

Supporting modules:

- `Outcomes` holds the error kinds and the outcome types:
  - `Result`: a value or an error;
  - `Outcome`: pass or fail;
  - `Completion`: returned, threw or diverges;
  - `Option`.
- `Buffers` models the Node `Buffer` operations the encoder calls:
  - `alloc`, `set`, `writeUInt*LE`, `writeBigInt64LE` and `concat`;
  - little-endian encoding and decoding, with a round trip proved in both
    directions.

## How the model is shaped

The model follows the shape of the code.

The objects whose fields the code updates are classes with
`modifies`/`reads` frames:

- integer cells (`Uint.UintCell`), whose value every operation changes;
- frames, whose buffers are arrays;
- the file, and the range list it shares with its frames (`Fseq.RangeList`);
- the compression setting.

Variables, sparse ranges and headers are classes too, because the code
shares them by reference. Their fields are constants in the model; the
code's later reassignment of them is listed under "## Left out".

Each method is proved against a specification function:

- `Headers.HeaderImage`, `Variables.VariableRecord` and `Variables.Records`;
- `Channels.ChannelOffset`;
- `Fseq.ImageOf`, with `Fseq.RangeRecords` and `Fseq.FrameBytes`.

`Fseq.ImageOf` is a function of `Fseq.Contents`, a snapshot of the values
a file's bytes depend on: the frame buffer contents, the variables, the
fps, the range fields and the uid. `Fseq.FseqFile.Snapshot` takes that
snapshot of a file, and `Fseq.FseqFile.Image` is `ImageOf` of it. Each
step of `toBuffer` (constructHeader, buildRanges, buildVariables and
buildFrames) is a method that promises to leave the snapshot unchanged
and to return its part of the image.

Lemmas then prove what the code promises about those functions.

Several behaviours of the code are modelled as written. Where the code and
the format's description differ, the model follows the code:

- **Sparse range records never return.** `UintUtils.toBytes` computes
  `left >> 8` without storing it, so its loop never ends for a positive
  value. For a zero value it returns `log2(numCap + 1)` zero bytes, that is
  24 bytes for a Uint24. A 24-byte block cannot be `set` into the 6-byte
  range record, so that case throws. As a consequence, a file serialises
  only when it has no sparse ranges (`Fseq.ImageReturns`).
- **Range membership is strict at both ends.** A channel must satisfy
  `start < c < start + count`. A range's first channel can be set only
  through another range that holds it strictly inside, and channel 0 can
  never be set.
- **Frames share the file's range list by reference.** A frame made before
  ranges were added still sees them. Its offset loop then stops once the
  running sum reaches the buffer length it was sized with. Writes past the
  end of the buffer are dropped (`Channels.StaleFrameStopsEarly`).
- **Two header fields are computed from 12 bytes per range.** The
  "channel count" field is 12 × range count, and the header length counts
  12 bytes per range, although a range record has 6 bytes.
- **The step time is `Uint8(1 / fps)`.** It is 0 for any whole fps of 2 or
  more, including the default 30.
- **Only wrapping cells compose.** On a wrapping cell, a chain of
  whole-number adds, subtracts and multiplies ends at the exact result
  reduced mod 2^w, whatever wrap-arounds happen on the way
  (`Uint.WrapChainIsExactMod`). A clamping cell saturates at every step,
  so its chains do not: a Uint8Clamped at 250 that adds 10 and subtracts
  10 ends at 245 (`Uint.ClampChainIsNotExact`).

## Model

| member | source | states |
|---|---|---|
| Buffers.DecodeEncodeLE | src/header.ts:39 | a value below 256^n written as n little-endian bytes reads back as that value |
| Buffers.EncodeDecodeLE | src/header.ts:56 | re-encoding the value of any byte string at its own length gives the same bytes back |
| Buffers.Set | src/variable.ts:14-15 | `buf.set(src, offset)` copies src to offset, leaving the other bytes alone, when it fits; otherwise it fails out of bounds and changes nothing |
| Buffers.WriteUIntLE | src/header.ts:39 | `writeUIntLE` writes the little-endian bytes of v at offset when 0 ≤ v < 256^n; otherwise it fails out of range and changes nothing |
| Buffers.WriteBigInt64LE | src/header.ts:76 | `writeBigInt64LE` writes v in two's complement when −2^63 ≤ v < 2^63; otherwise it fails out of range and changes nothing |
| Buffers.FlattenLength | src/fseq.ts:212 | the concatenation of buffers is as long as the sum of their lengths |
| Buffers.FlattenAppend | src/fseq.ts:205-212 | concatenating two lists of buffers concatenates their flattenings |
| Uint.Capacities | src/uint.ts:169-171 | maxInt(w) = 2^w − 1 for the widths 4, 8, 12, 16, 24, 32 and 64 |
| Uint.MaxInt | src/uint.ts:169-171 | maxInt(w) is the largest number below 2^w |
| Uint.NormalizeInRange | src/uint.ts:82-93 | the range fix always yields an integer in [0, cap] |
| Uint.Normalize | src/uint.ts:82-93 | the value fix leaves an integer in [0, cap]. It keeps an in-range floor, clamps to cap or 0 under the clamp policy, and otherwise differs from the floor by a multiple of cap + 1. |
| Uint.NormalizeIdempotent | src/uint.ts:82-93 | fixing a value that is already fixed changes nothing |
| Uint.UintCell.constructor | src/uint.ts:96-167 | a cell of one of the 13 width/policy classes starts at 0 |
| Uint.UintCell.ToNum | src/uint.ts:46-48 | a cell's number is an integer between 0 and its cap |
| Uint.UintCell.Fix | src/uint.ts:82-93 | the cell becomes the floor of its number, clamped to [0, cap] or reduced mod cap + 1 by the repeated add/subtract loops |
| Uint.UintCell.WrapDown | src/uint.ts:87 | subtracting cap + 1 while the whole value is above the cap leaves the value mod (cap + 1), an integer in [0, cap] |
| Uint.UintCell.WrapUp | src/uint.ts:90 | adding cap + 1 while the whole value is negative leaves the value mod (cap + 1), an integer in [0, cap] |
| Uint.UintCell.Add | src/uint.ts:6-14 | returns the cell itself, holding the fix of old value + operand |
| Uint.UintCell.Subtract | src/uint.ts:15-23 | returns the cell itself, holding the fix of old value − operand |
| Uint.UintCell.Multiply | src/uint.ts:24-32 | returns the cell itself, holding the fix of old value × operand |
| Uint.UintCell.Divide | src/uint.ts:33-41 | returns the cell itself, holding the fix of old value ÷ operand, for a non-zero operand |
| Uint.UintCell.From | src/uint.ts:42-45 | returns the cell itself, holding the fix of the given number |
| Uint.Uint8Overflow | src/uint.ts:107-116 | 250 + 10 wraps to 4 in a Uint8 and saturates at 255 in a Uint8Clamped |
| Uint.CellChain | src/uint.ts:6-32 | a chain of whole-number add, subtract and multiply calls on a cell leaves a value in [0, cap], each call fixing its result as the cell methods do |
| Uint.StepCongruent | src/uint.ts:6-32 | add, subtract and multiply by a whole number keep two numbers with the same remainder mod m congruent |
| Uint.ChainCongruent | src/uint.ts:6-32 | a whole chain of such steps keeps two congruent numbers congruent |
| Uint.WrapChainIsExactMod | src/uint.ts:6-32 | on a wrapping cell, any chain of whole-number adds, subtracts and multiplies ends at the exact result mod cap + 1 |
| Uint.ClampChainIsNotExact | src/uint.ts:86-89 | on a Uint8Clamped, 250 + 10 − 10 ends at 245, while the exact chain ends at 250 |
| Uint.CombineUint4 | src/uint.ts:175-177 | combineUint4 gives a fresh Uint8 holding 16a + b, which never exceeds 255 |
| Uint.ToBytes | src/uint.ts:178-193 | toBytes runs forever exactly when the value is positive; on 0 it returns width-many zero bytes; it never throws |
| Variables.VariableRecordLayout | src/variable.ts:8-18 | a record is built exactly when the payload has at most 65531 bytes. It then holds 4 + payload length in bytes 0..1, the identifier in 2..3 and the payload from byte 4. Otherwise the copy fails out of bounds. |
| Variables.EmptyPayloadRecord | src/variable.ts:23-27 | a variable with an empty value serialises as [4, 0] followed by its identifier |
| Variables.RecordLength | src/variable.ts:10 | the record length is 4 + the payload length clamped to 65535, so it is at least 4 and fits 16 bits |
| Variables.RecordWrites | src/variable.ts:11-15 | writing the length at 0, the identifier at 2 and the payload at 4 into a zeroed buffer of 4 + payload bytes lays the three end to end |
| Variables.Variable.constructor | src/variable.ts:4-7 | a two-character identifier and the value are stored as given |
| Variables.Variable.Create | src/variable.ts:4-7 | construction succeeds exactly when the identifier has length 2, and fails with the identifier error otherwise |
| Variables.Variable.ToBuffer | src/variable.ts:8-18 | toBuffer produces the variable's record, or the copy's out-of-bounds error |
| Variables.Variable.MediaFile | src/variable.ts:23 | the MediaFile variable is "mf" with an empty value |
| Variables.Variable.SequenceProducer | src/variable.ts:27 | the SequenceProducer variable is "sp" with an empty value |
| Variables.RecordTwice | src/variable.ts:8-18 | toBuffer leaves the variable unchanged: two calls give the same record |
| Variables.RecordsOk | src/header.ts:44 | mapping toBuffer over the variables succeeds exactly when every payload fits. The i-th result is then the i-th variable's record. |
| Variables.RecordsErrExtends | src/header.ts:44 | once a prefix of the variables fails, the whole list fails with the same error |
| Variables.ToBuffers | src/header.ts:44 | the map over the variables yields their records in order, or the first failure |
| Sparse.SparseRange.constructor | src/sparse.ts:4 | both Uint24 cells are kept by reference |
| Sparse.SparseRange.ToBuffer | src/sparse.ts:5-14 | toBuffer never returns a record. It runs forever when either field is positive, and throws out of bounds when both are 0. |
| Headers.HeaderLengthExact | src/header.ts:36-56 | with at most 255 ranges, the header length is 32 + 12R and the channel count field is 12R, with no clamping |
| Headers.HeaderImageOk | src/header.ts:16-79 | writeHeader succeeds exactly when every variable record succeeds, 32 + 12R + the total record length ≤ 65535, and uid < 2^63 |
| Headers.HeaderBytesLayout | src/header.ts:16-79 | header bytes decode field by field: magic at 0, channel data offset at 4, versions at 6 and 7, header length at 8, channel count at 10, frame count at 14, step time at 18, zero flags and compression at 19..21, range count at 22, uid at 24 |
| Headers.HeaderBytesFields | src/header.ts:16-79 | the 32 header bytes hold each field's little-endian encoding at the offset the source writes it to |
| Headers.HeaderImageLayout | src/header.ts:16-79 | a written header holds "PSEQ", offset 32 + 12R + the total record length, header length 32 + 12R, channel count 12R, the frame count, the step time, zeros, R and the uid, each at its offset |
| Headers.WritesLayOutHeader | src/header.ts:17-76 | the source's sequence of writes into a zeroed 32-byte buffer produces exactly the header byte layout |
| Headers.LeadWritesLayout | src/header.ts:17-50 | the magic, version, header length and offset writes into a zeroed 32-byte buffer fill bytes 0..9 and leave the other 22 zero |
| Headers.CountFieldWritesLayout | src/header.ts:55-68 | the channel count, frame count, step time and flags writes fill bytes 10..19 and leave every other byte as it was |
| Headers.TailWritesLayout | src/header.ts:70-76 | the compression, range count and uid writes fill bytes 20..22 and 24..31 and leave bytes 0..19 and 23 as they were |
| Headers.Header.constructor | src/header.ts:82-93 | every field is stored as given |
| Headers.Header.ToBuffer | src/header.ts:95-97 | toBuffer is writeHeader of the header's current field values |
| Headers.WriteHeader | src/header.ts:16-79 | writeHeader returns the header bytes for the header's field values, or the first error any write raises |
| Headers.WriteFields | src/header.ts:17-50 | the writes of the magic, versions, header length and channel data offset, followed by the rest, give HeaderImage |
| Headers.WriteCounts | src/header.ts:55-76 | the writes from offset 10 onward succeed exactly when uid < 2^63, and then lay out those fields |
| Headers.HeaderLengthOf | src/header.ts:36-38 | the Uint16Clamped header length is 32 + 12R, below 2^16 |
| Headers.ChannelCountOf | src/header.ts:55 | the Uint32Clamped channel count is 12R, below 2^32 |
| Headers.WriteCountFields | src/header.ts:56-68 | the count, step time and flags writes never fail and perform exactly those four writes |
| Headers.WriteTail | src/header.ts:70-76 | the tail writes fail out of range exactly when uid ≥ 2^63, and otherwise perform exactly those three writes |
| Channels.FindRange | src/fseq.ts:36-41 | findIndex gives −1 exactly when no range strictly holds the channel; otherwise it gives the first range that does |
| Channels.ScanSumsPrefix | src/fseq.ts:47-51 | while the ranges' running total stays below the buffer length, the loop sums the counts of all ranges before the found one |
| Channels.Scan | src/fseq.ts:47-51 | the loop never lowers the running sum, and returns it unchanged once it has reached the buffer length |
| Channels.ChannelOffsetExact | src/fseq.ts:47-53 | when the buffer was sized for the current ranges, the offset of a channel in range r is the total count before r plus (c − start). It lies inside range r's slice, past that slice's first byte. |
| Channels.OffsetsInjective | src/fseq.ts:35-53 | distinct settable channels map to distinct offsets, even with overlapping ranges |
| Channels.StaleFrameStopsEarly | src/fseq.ts:26-53 | a 4-byte frame whose list gained two ranges computes offset 5 for channel 21 rather than 9 |
| Channels.ChannelZeroUnsettable | src/fseq.ts:36-46 | no range holds channel 0 strictly inside, so setting it throws |
| Channels.FirstChannelThroughOverlap | src/fseq.ts:36-52 | with ranges (0, 10) and (5, 10), channel 5 is outside its own range but is set at offset 5 through the first range |
| JsArrays.Splice | src/fseq.ts:88 | splice keeps the elements before the start, puts the items there and keeps the elements after the removed ones. It removes deleteCount elements at the start, clamped to between 0 and the elements available, with negative and out-of-range starts resolved as JavaScript does. |
| JsArrays.IndexOf | src/fseq.ts:115 | indexOf gives −1 exactly when the element is absent; otherwise it gives its first position |
| JsArrays.SpliceUndo | src/fseq.ts:88-98 | splicing the removed elements back over the inserted ones restores the list |
| JsArrays.SpliceMembers | src/fseq.ts:88 | every element after a splice was in the list or among the inserted items |
| JsArrays.InsertAt | src/fseq.ts:87-89 | splice(idx, 0, x) inserts x at idx and keeps every other element in order |
| JsArrays.ReplaceAt | src/fseq.ts:96-98 | splice(idx, 1, v) with idx in range replaces that one element and returns the old one |
| JsArrays.RemoveAt | src/fseq.ts:121-123 | splice(idx, 1) with idx in range removes exactly that element |
| JsArrays.SpliceLast | src/fseq.ts:121-123 | splice(−1, 1, items) replaces the last element of a non-empty list, and only inserts into an empty one |
| JsArrays.SpliceAtMiss | src/fseq.ts:114-139 | removing or replacing an absent element through indexOf edits the last element instead |
| Fseq.CompressionSetting.constructor | src/fseq.ts:11 | the compression setting starts as "none" |
| Fseq.CompressionSetting.SetCompression | src/fseq.ts:17-21 | setCompression accepts only "none"; any other mode fails unsupported and leaves the setting as it was |
| Fseq.CompressionStaysNone | src/fseq.ts:11-21 | the setting is "none" after any call, and the call fails exactly for a mode other than "none" |
| Fseq.Spans | src/fseq.ts:36-52 | the ranges' current start and count values, range by range |
| Fseq.RangeList.constructor | src/fseq.ts:147 | the file's range list starts empty; the file and each frame it creates hold the same list object |
| Fseq.WriteByte | src/fseq.ts:53 | an index write changes only that byte, and is ignored past the end |
| Fseq.FrameData.constructor | src/fseq.ts:26-29 | a new frame shares the given range list. Its zero-filled buffer is as long as the sum of the ranges' counts at that moment. |
| Fseq.FrameData.SetChannelValue | src/fseq.ts:35-54 | fails with RangeError, changing nothing, when no range strictly holds the channel; otherwise writes the value at the offset the loop computes |
| Fseq.FrameData.DataIndex | src/fseq.ts:47-51 | the for loop sums the counts of the ranges before the found one, stopping once the sum reaches the buffer length, as Channels.Scan does |
| Fseq.FrameData.ToBuffer | src/fseq.ts:55-57 | toBuffer returns the frame's own buffer, not a copy |
| Fseq.FreshFrameWrite | src/fseq.ts:35-54 | on a frame sized for its current ranges, a write to a settable channel changes exactly one byte inside the buffer, to the value |
| Fseq.StepTimeOfWholeFps | src/fseq.ts:180 | for a whole fps ≥ 1 the step time is 1 div fps: 1 at 1 fps and 0 from 2 fps up |
| Fseq.StepTime | src/fseq.ts:180 | the step time is the floor of 1 / fps when that lies in [0, 256), and 0 for every fps above 1 |
| Fseq.RangeRecordsOnlyEmpty | src/fseq.ts:188-190 | building the range records returns exactly when there are no ranges; otherwise it ends as the first range's toBuffer does |
| Fseq.FrameBytes | src/fseq.ts:196-198 | the i-th built frame is the i-th frame's current buffer contents |
| Fseq.FlattenParts | src/fseq.ts:205-212 | header, no range records, variable records and frames flatten to their concatenation, with the summed length |
| Fseq.FseqFile.constructor | src/fseq.ts:67-166 | a new file has no frames, variables or ranges, 30 fps and a fresh wrapping Uint64 uid of 0 |
| Fseq.FseqFile.CreateFrame | src/fseq.ts:72-74 | createFrame gives a fresh zeroed frame sharing the file's range list and sized by its current total channel count |
| Fseq.FseqFile.AddFrame | src/fseq.ts:79-81 | the frame is appended |
| Fseq.FseqFile.InsertFrame | src/fseq.ts:87-89 | the frames become splice(idx, 0, f) of the old frames |
| Fseq.FseqFile.ReplaceFrame | src/fseq.ts:96-98 | the frames become splice(idx, 1, f) of the old frames, and the removed frame, if any, is returned |
| Fseq.FseqFile.AddVariable | src/fseq.ts:107-109 | the variable is appended |
| Fseq.FseqFile.RemoveVariable | src/fseq.ts:114-116 | the variables become splice(indexOf(v), 1) of the old variables |
| Fseq.FseqFile.RemoveVariableAt | src/fseq.ts:121-123 | the variables become splice(idx, 1) of the old variables |
| Fseq.FseqFile.ReplaceVariable | src/fseq.ts:129-131 | the variables become splice(indexOf(v1), 1, v2) of the old variables |
| Fseq.FseqFile.ReplaceVariableAt | src/fseq.ts:137-139 | the variables become splice(idx, 1, v) of the old variables |
| Fseq.FseqFile.AddChannelRange | src/fseq.ts:152-154 | the range is appended to the shared list |
| Fseq.FseqFile.RemoveChannelRange | src/fseq.ts:159-161 | the shared list becomes splice(indexOf(r), 1) of the old list |
| Fseq.FseqFile.SetUID | src/fseq.ts:171-173 | the file keeps the given uid cell by reference |
| Fseq.SpliceKeepsValid | src/fseq.ts:114-139 | splicing well-formed variables into a list of well-formed variables leaves only well-formed variables |
| Fseq.BuildHeader | src/fseq.ts:176-185 | the header built with version 0.2 holds the frame count mod 2^32, the Uint8 of 1 / fps, the range count mod 256, the uid and the variables |
| Fseq.HeaderRecordsOk | src/fseq.ts:175-186 | a header that returns had fps ≠ 0 and built every variable record |
| Fseq.ImageReturns | src/fseq.ts:204-213 | toBuffer returns exactly when fps ≠ 0, there are no ranges, every variable record fits, 32 + the total record length ≤ 65535, and uid < 2^63 |
| Fseq.ImageLayout | src/fseq.ts:204-213 | a serialised file is the 32-byte header (frame count mod 2^32, step time, 0 ranges), then the variable records, then the frame buffers in order; its length is the sum of those parts |
| Fseq.FseqFile.ConstructHeader | src/fseq.ts:175-186 | constructHeader builds a version 0.2 header from the frame count, 1 / fps, 0 flags, the range count, the uid and the variables, and diverges when fps is 0 |
| Fseq.FseqFile.BuildRanges | src/fseq.ts:188-190 | buildRanges ends as the map of range toBuffer over the shared list |
| Fseq.FseqFile.BuildVariables | src/fseq.ts:192-194 | buildVariables yields the records of the variables in order |
| Fseq.FseqFile.BuildFrames | src/fseq.ts:196-198 | buildFrames yields each frame's buffer contents in order |
| Fseq.FseqFile.ToBuffer | src/fseq.ts:204-213 | toBuffer ends exactly as the file's image: header, range records, variable records and frames concatenated, or the first part's abrupt end |
| Fseq.ToBufferTwice | src/fseq.ts:204-213 | toBuffer changes nothing: serialising twice gives the same result |
| Color.ColorOrderFromString | src/color.ts:11-29 | a string whose lower case is an order's token gives that order ("w" for ONE); any other string gives RGB |
| Color.ColorOrderToString | src/color.ts:31-49 | an order's number gives its upper-case name ("W" for ONE); a number outside 0..6 gives "UNKNOWN" |
| Color.UpperTokens | src/color.ts:33-46 | the upper-case tokens are RGB, RBG, GRB, GBR, BRG, BGR and W |
| Color.OrdinalsDistinct | src/color.ts:1-9 | distinct orders have distinct numbers and distinct tokens |
| Color.RoundTrip | src/color.ts:11-49 | reading back the name of any order gives that order |
| Color.UnknownReadsAsDefault | src/color.ts:28-48 | a number outside the enum prints as "UNKNOWN", which reads back as RGB |

## Left out

- `genterateUID` is not modelled. It reads the clock (`Date.now()`).
- Floating point is modelled with exact reals. The model has no NaN, no
  Infinity and no rounding; an integer above 2^53 is kept exactly.
- Uint.UintCell.Divide: requires a non-zero divisor. In JavaScript, dividing
  by 0 gives Infinity or NaN, and then the wrap loop never ends or the value
  becomes NaN.
- Fseq.FseqFile.ConstructHeader: fps 0 is reported as divergence directly.
  1 / 0 is Infinity, and the Uint8 wrap loop never ends. The model does not
  run that loop.
- Uint.ToBytes: the `left > 0` loop is bounded by a `fuel` parameter.
  Divergence is reported when the fuel runs out, and the contract holds for
  every fuel. The same fuel is passed through Sparse.SparseRange.ToBuffer
  and Fseq.FseqFile.ToBuffer.
- The big-endian branch of `toBytes` and the `endianness` switch are left
  out. Nothing in the encoder sets `endianness` to "big".
- The operand shorthands (`a`, `s`, `m`, `d`, `f`, `n`) are treated as the
  operations they forward to, and are not modelled separately. The display
  methods (`toString`, `stringTag`) and the class hierarchy are left out.
  The 13 width/policy classes are one class with a width and a policy.
- Strings are modelled as byte sequences: identifiers and payloads are
  ASCII/UTF-8 bytes already encoded. `Buffer.from(string)`'s UTF-8 encoding
  is not modelled.
- The colour-order functions use ASCII case mapping only; full Unicode case
  mapping is not modelled.
- Color.ColorOrderToString: takes an integer. A fractional JavaScript number
  such as 1.5 also prints as "UNKNOWN" in the source; fractional arguments
  are not modelled.
- Compression (zlib, zstd) is not implemented by the source. Only the
  setting that rejects it is modelled.
- `MediaFile` and `SequenceProducer` are shared static objects in the
  source. They are modelled as methods returning a fresh variable with the
  same fields.
- The re-exports (`Variable`, `SparseRange`, `Uint`, `Colors`) carry no
  behaviour of their own.
- Buffers.WriteUIntLE, Buffers.WriteBigInt64LE: require the write's offset
  to be inside the buffer. Every call in the encoder writes at a fixed
  offset that fits in the buffer it writes to, so the offset error is not
  modelled.
- Reassigning a public field after construction is not modelled. The
  fields `identifier` and `value` of a variable, `startChannel` and
  `channelCount` of a sparse range, every field of a header and the file's
  `channelRanges` are constants in the model. So the model does not capture
  three behaviours of the code:
  - setting `value` on the shared `MediaFile` or `SequenceProducer` object
    changes every file that holds it;
  - assigning an identifier of another length skips the constructor's
    length check, after which the record's copies throw or overlap;
  - assigning a new list to `channelRanges` detaches it from frames made
    earlier.
- The state-changing methods (cell arithmetic, list edits, the frame
  constructor and the channel write) state their new state with `old`.
  Fseq.FrameData.constructor and Fseq.FrameData.SetChannelValue state the
  range totals and offsets over the ranges' values before the call.
- A `Buffer` returned by toBuffer is modelled as its contents (`seq<byte>`).
  Only `FrameData.toBuffer` keeps the array itself, since it returns the
  frame's own buffer. Later mutation of a returned header or record buffer
  is not modelled.
