/**
 * The 32-byte file header (header.ts), written field by field at fixed
 * offsets into a zero-filled buffer.
 */
module Headers {
  import opened Outcomes
  import opened Buffers
  import opened Uint
  import opened Variables

  /** The compression settings a header can name; only NoCompression is ever accepted. */
  datatype CompressionType = Zlib | Zstd | NoCompression

  /** The magic "PSEQ" in ASCII. */
  const Magic: seq<byte> := [0x50, 0x53, 0x45, 0x51]

  /**
   * headerLength: 32 + 8 * compression block count (always 0) + 12 * sparse
   * range count, held in a Uint16Clamped. The factor 12 counts 12 bytes per
   * sparse range, though a range record is 6 bytes.
   */
  function HeaderLength(rangeCount: int): int
  {
    Normalize(MaxInt(16), true, (32 + 8 * 0 + 12 * rangeCount) as real)
  }

  /** The "channel count" field: a Uint32Clamped of 12 * range count, not the sum of the ranges' counts. */
  function ChannelCountField(rangeCount: int): int
  {
    Normalize(MaxInt(32), true, (12 * rangeCount) as real)
  }

  /** The bytes of a header whose field values are known, in offset order. */
  function HeaderBytes(channelDataOffset: nat, minor: byte, major: byte, headerLength: nat,
                       channelCount: nat, frameCount: nat, stepTime: byte, rangeCount: byte,
                       uid: nat): seq<byte>
  {
    LeadBytes(channelDataOffset, minor, major, headerLength) +
    CountBytes(channelCount, frameCount, stepTime) + TailBytes(rangeCount, uid)
  }

  /** Bytes 0..9: the magic, the channel data offset, the versions and the header length. */
  function LeadBytes(channelDataOffset: nat, minor: byte, major: byte, headerLength: nat): (r: seq<byte>)
    ensures |r| == 10
  {
    Magic + EncodeLE(channelDataOffset, 2) + [minor, major] + EncodeLE(headerLength, 2)
  }

  /** Bytes 10..19: the channel count, the frame count, the step time and the flags. */
  function CountBytes(channelCount: nat, frameCount: nat, stepTime: byte): (r: seq<byte>)
    ensures |r| == 10
  {
    EncodeLE(channelCount, 4) + EncodeLE(frameCount, 4) + [stepTime, 0]
  }

  /** Bytes 20..31: the compression bytes, the range count, a reserved byte and the uid. */
  function TailBytes(rangeCount: byte, uid: nat): (r: seq<byte>)
    ensures |r| == 12
  {
    EncodeLE(0, 2) + [rangeCount, 0] + EncodeLE(uid, 8)
  }

  /**
   * What writeHeader produces for the given field values: the error of the
   * first variable record that fails, ERR_OUT_OF_RANGE when the channel data
   * offset does not fit in 16 bits or the uid not in a signed 64-bit integer,
   * and the header bytes otherwise. The flags field plays no part.
   */
  function HeaderImage(minor: byte, major: byte, frameCount: nat, stepTime: byte,
                       rangeCount: byte, uid: nat, variables: seq<Variable>): Result<seq<byte>>
    requires AllValid(variables) && frameCount < Pow256(4)
  {
    var headerLength := HeaderLength(rangeCount);
    match Records(variables)
    case Err(e) => Err(e)
    case Ok(records) =>
      var channelDataOffset := headerLength + TotalLength(records);
      if channelDataOffset >= Pow256(2) then Err(ValueOutOfRange)
      else if uid >= TwoTo63 then Err(ValueOutOfRange)
      else Ok(HeaderBytes(channelDataOffset, minor, major, headerLength,
                          ChannelCountField(rangeCount), frameCount, stepTime, rangeCount, uid))
  }

  /** With at most 255 ranges the Uint16Clamped never clamps: the header length is 32 + 12 * R. */
  lemma HeaderLengthExact(rangeCount: byte)
    ensures HeaderLength(rangeCount) == 32 + 12 * rangeCount
    ensures ChannelCountField(rangeCount) == 12 * rangeCount
  {
    Capacities();
    assert ((32 + 8 * 0 + 12 * rangeCount) as real).Floor == 32 + 12 * rangeCount;
    assert ((12 * rangeCount) as real).Floor == 12 * rangeCount;
  }

  /**
   * Writing succeeds exactly when every variable record succeeds, the channel
   * data offset 32 + 12 * R + the total record length is at most 65535, and
   * the uid is below 2^63.
   */
  lemma HeaderImageOk(minor: byte, major: byte, frameCount: nat, stepTime: byte,
                      rangeCount: byte, uid: nat, variables: seq<Variable>)
    requires AllValid(variables) && frameCount < Pow256(4)
    ensures HeaderImage(minor, major, frameCount, stepTime, rangeCount, uid, variables).Ok? <==>
      Records(variables).Ok? &&
      32 + 12 * rangeCount + TotalLength(Records(variables).value) <= 65535 &&
      uid < TwoTo63
  {
    HeaderLengthExact(rangeCount);
    Pow256Values();
  }

  /** The lead bytes hold the magic, the offset, the versions and the header length. */
  lemma LeadBytesFields(channelDataOffset: nat, minor: byte, major: byte, headerLength: nat)
    ensures var l := LeadBytes(channelDataOffset, minor, major, headerLength);
      l[..4] == Magic && l[4..6] == EncodeLE(channelDataOffset, 2) &&
      l[6] == minor && l[7] == major && l[8..10] == EncodeLE(headerLength, 2)
  {
    var p2 := Magic + EncodeLE(channelDataOffset, 2);
    var l := p2 + [minor, major] + EncodeLE(headerLength, 2);
    assert l[..6] == p2 && l[..4] == p2[..4];
    assert l[4..6] == p2[4..6];
  }

  /** The count bytes hold the channel count, the frame count, the step time and a zero flags byte. */
  lemma CountBytesFields(channelCount: nat, frameCount: nat, stepTime: byte)
    ensures var c := CountBytes(channelCount, frameCount, stepTime);
      c[..4] == EncodeLE(channelCount, 4) && c[4..8] == EncodeLE(frameCount, 4) &&
      c[8] == stepTime && c[9] == 0
  {
    var p := EncodeLE(channelCount, 4) + EncodeLE(frameCount, 4);
    var c := p + [stepTime, 0];
    assert c[..8] == p;
    assert c[..4] == p[..4] && c[4..8] == p[4..8];
  }

  /** The tail bytes hold zeros at 0, 1 and 3, the range count at 2 and the uid from 4 on. */
  lemma TailBytesFields(rangeCount: byte, uid: nat)
    ensures var t := TailBytes(rangeCount, uid);
      t[0] == 0 && t[1] == 0 && t[2] == rangeCount && t[3] == 0 && t[4..] == EncodeLE(uid, 8)
  {
    assert EncodeLE(0, 2) == [0, 0];
  }

  /** The header bytes hold each field's encoding at its offset. */
  lemma HeaderBytesFields(channelDataOffset: nat, minor: byte, major: byte, headerLength: nat,
                          channelCount: nat, frameCount: nat, stepTime: byte, rangeCount: byte,
                          uid: nat)
    ensures var b := HeaderBytes(channelDataOffset, minor, major, headerLength, channelCount,
                                 frameCount, stepTime, rangeCount, uid);
      |b| == 32 && b[..4] == Magic && b[4..6] == EncodeLE(channelDataOffset, 2) &&
      b[6] == minor && b[7] == major && b[8..10] == EncodeLE(headerLength, 2) &&
      b[10..14] == EncodeLE(channelCount, 4) && b[14..18] == EncodeLE(frameCount, 4) &&
      b[18] == stepTime && b[19] == 0 && b[20] == 0 && b[21] == 0 &&
      b[22] == rangeCount && b[23] == 0 && b[24..32] == EncodeLE(uid, 8)
  {
    var l := LeadBytes(channelDataOffset, minor, major, headerLength);
    var c := CountBytes(channelCount, frameCount, stepTime);
    var t := TailBytes(rangeCount, uid);
    LeadBytesFields(channelDataOffset, minor, major, headerLength);
    CountBytesFields(channelCount, frameCount, stepTime);
    TailBytesFields(rangeCount, uid);
    var b := l + c + t;
    assert b[..10] == l && b[10..20] == c && b[20..] == t;
    assert b[..4] == l[..4] && b[4..6] == l[4..6] && b[8..10] == l[8..10];
    assert b[10..14] == c[..4] && b[14..18] == c[4..8];
    assert b[24..32] == t[4..];
  }

  /** The header bytes decode field by field to the values they were built from. */
  lemma HeaderBytesLayout(channelDataOffset: nat, minor: byte, major: byte, headerLength: nat,
                          channelCount: nat, frameCount: nat, stepTime: byte, rangeCount: byte,
                          uid: nat)
    requires channelDataOffset < Pow256(2) && headerLength < Pow256(2)
    requires channelCount < Pow256(4) && frameCount < Pow256(4) && uid < Pow256(8)
    ensures var b := HeaderBytes(channelDataOffset, minor, major, headerLength, channelCount,
                                 frameCount, stepTime, rangeCount, uid);
      |b| == 32 && b[..4] == Magic && DecodeLE(b[4..6]) == channelDataOffset &&
      b[6] == minor && b[7] == major && DecodeLE(b[8..10]) == headerLength &&
      DecodeLE(b[10..14]) == channelCount && DecodeLE(b[14..18]) == frameCount &&
      b[18] == stepTime && b[19] == 0 && b[20] == 0 && b[21] == 0 &&
      b[22] == rangeCount && b[23] == 0 && DecodeLE(b[24..32]) == uid
  {
    HeaderBytesFields(channelDataOffset, minor, major, headerLength, channelCount, frameCount,
                      stepTime, rangeCount, uid);
    DecodeEncodeLE(channelDataOffset, 2);
    DecodeEncodeLE(headerLength, 2);
    DecodeEncodeLE(channelCount, 4);
    DecodeEncodeLE(frameCount, 4);
    DecodeEncodeLE(uid, 8);
  }

  /**
   * A header that is written decodes to the values it was given: the magic at
   * 0..3, 32 + 12 * R + the total record length at 4..5, the versions at 6 and
   * 7, 32 + 12 * R at 8..9, 12 * R at 10..13, the frame count at 14..17, the
   * step time at 18, R at 22, the uid at 24..31, and zeros at 19, 20, 21 and 23.
   */
  lemma HeaderImageLayout(minor: byte, major: byte, frameCount: nat, stepTime: byte,
                          rangeCount: byte, uid: nat, variables: seq<Variable>)
    requires AllValid(variables) && frameCount < Pow256(4)
    requires HeaderImage(minor, major, frameCount, stepTime, rangeCount, uid, variables).Ok?
    ensures var b := HeaderImage(minor, major, frameCount, stepTime, rangeCount, uid, variables).value;
      |b| == 32 && b[..4] == Magic &&
      DecodeLE(b[4..6]) == 32 + 12 * rangeCount + TotalLength(Records(variables).value) &&
      b[6] == minor && b[7] == major &&
      DecodeLE(b[8..10]) == 32 + 12 * rangeCount &&
      DecodeLE(b[10..14]) == 12 * rangeCount &&
      DecodeLE(b[14..18]) == frameCount &&
      b[18] == stepTime && b[19] == 0 && b[20] == 0 && b[21] == 0 &&
      b[22] == rangeCount && b[23] == 0 &&
      DecodeLE(b[24..32]) == uid
  {
    HeaderLengthExact(rangeCount);
    Pow256Values();
    HeaderBytesLayout(HeaderLength(rangeCount) + TotalLength(Records(variables).value), minor, major,
                      HeaderLength(rangeCount), ChannelCountField(rangeCount), frameCount,
                      stepTime, rangeCount, uid);
  }

  /** The bytes writeHeader's writes leave in 32 zero bytes, applied in its order. */
  function HeaderWrites(channelDataOffset: nat, minor: byte, major: byte, headerLength: nat,
                        channelCount: nat, frameCount: nat, stepTime: byte, rangeCount: byte,
                        uid: nat): seq<byte>
  {
    CountWrites(LeadWrites(channelDataOffset, minor, major, headerLength), channelCount,
                frameCount, stepTime, rangeCount, uid)
  }

  /** The first writes: the magic, the versions, the header length and the channel data offset. */
  function LeadWrites(channelDataOffset: nat, minor: byte, major: byte, headerLength: nat): seq<byte>
  {
    var s0 := Overwrite(Zeros(32), 0, Magic);
    var s1 := Overwrite(Overwrite(s0, 6, EncodeLE(minor, 1)), 7, EncodeLE(major, 1));
    Overwrite(Overwrite(s1, 8, EncodeLE(headerLength, 2)), 4, EncodeLE(channelDataOffset, 2))
  }

  /** The remaining writes, from the channel count field to the uid. */
  function CountWrites(s: seq<byte>, channelCount: nat, frameCount: nat, stepTime: byte,
                       rangeCount: byte, uid: nat): seq<byte>
    requires |s| == 32
  {
    TailWrites(CountFieldWrites(s, channelCount, frameCount, stepTime), rangeCount, uid)
  }

  /** The channel count, frame count, step time and flags writes. */
  function CountFieldWrites(s: seq<byte>, channelCount: nat, frameCount: nat, stepTime: byte): (r: seq<byte>)
    requires |s| == 32
    ensures |r| == 32
  {
    var s3 := Overwrite(Overwrite(s, 10, EncodeLE(channelCount, 4)), 14, EncodeLE(frameCount, 4));
    Overwrite(Overwrite(s3, 18, EncodeLE(stepTime, 1)), 19, EncodeLE(0, 1))
  }

  /** The compression, range count and uid writes. */
  function TailWrites(s: seq<byte>, rangeCount: byte, uid: nat): seq<byte>
    requires |s| == 32
  {
    var s5 := Overwrite(Overwrite(s, 20, EncodeLE(0, 2)), 22, EncodeLE(rangeCount, 1));
    Overwrite(s5, 24, EncodeLE(uid, 8))
  }

  /** The lead writes leave the magic, the offset, the versions and the header length in bytes 0..9. */
  lemma LeadWritesLayout(channelDataOffset: nat, minor: byte, major: byte, headerLength: nat)
    ensures var t := LeadWrites(channelDataOffset, minor, major, headerLength);
      |t| == 32 && t[10..] == Zeros(22) &&
      t[..10] == LeadBytes(channelDataOffset, minor, major, headerLength)
  {
    var t := LeadWrites(channelDataOffset, minor, major, headerLength);
    var p2 := Magic + EncodeLE(channelDataOffset, 2);
    var p := p2 + [minor, major] + EncodeLE(headerLength, 2);
    assert EncodeLE(minor, 1) == [minor] && EncodeLE(major, 1) == [major];
    forall i | 0 <= i < 4 ensures t[i] == p[i] {
      assert p[i] == p2[i] == Magic[i];
    }
    forall i | 4 <= i < 6 ensures t[i] == p[i] {
      assert p[i] == p2[i];
    }
    assert t[..10] == p;
    assert t[10..] == Zeros(22);
  }

  /** The count field writes fill bytes 10..19 and leave the rest as they were. */
  lemma CountFieldWritesLayout(s: seq<byte>, channelCount: nat, frameCount: nat, stepTime: byte)
    requires |s| == 32
    ensures var t := CountFieldWrites(s, channelCount, frameCount, stepTime);
      t[..10] == s[..10] && t[20..] == s[20..] &&
      t[10..20] == CountBytes(channelCount, frameCount, stepTime)
  {
    var t := CountFieldWrites(s, channelCount, frameCount, stepTime);
    var p := EncodeLE(channelCount, 4) + EncodeLE(frameCount, 4) + [stepTime, 0];
    assert EncodeLE(stepTime, 1) == [stepTime] && EncodeLE(0, 1) == [0];
    forall i | 0 <= i < 10 ensures t[10..20][i] == p[i] {
    }
    assert t[..10] == s[..10] && t[20..] == s[20..];
  }

  /** The tail writes fill bytes 20..22 and 24..31 and leave the others as they were. */
  lemma TailWritesLayout(s: seq<byte>, rangeCount: byte, uid: nat)
    requires |s| == 32
    ensures var t := TailWrites(s, rangeCount, uid);
      |t| == 32 && t[..20] == s[..20] &&
      t[20..] == EncodeLE(0, 2) + [rangeCount, s[23]] + EncodeLE(uid, 8)
  {
    var t := TailWrites(s, rangeCount, uid);
    var p := EncodeLE(0, 2) + [rangeCount, s[23]] + EncodeLE(uid, 8);
    assert EncodeLE(rangeCount, 1) == [rangeCount];
    forall i | 0 <= i < 12 ensures t[20..][i] == p[i] {
    }
    assert t[..20] == s[..20];
  }

  /** Writing the fields one by one at their offsets lays out exactly the header bytes. */
  lemma WritesLayOutHeader(channelDataOffset: nat, minor: byte, major: byte, headerLength: nat,
                           channelCount: nat, frameCount: nat, stepTime: byte, rangeCount: byte,
                           uid: nat)
    ensures HeaderWrites(channelDataOffset, minor, major, headerLength, channelCount, frameCount,
                         stepTime, rangeCount, uid) ==
            HeaderBytes(channelDataOffset, minor, major, headerLength, channelCount, frameCount,
                        stepTime, rangeCount, uid)
  {
    var l := LeadWrites(channelDataOffset, minor, major, headerLength);
    LeadWritesLayout(channelDataOffset, minor, major, headerLength);
    var m := CountFieldWrites(l, channelCount, frameCount, stepTime);
    CountFieldWritesLayout(l, channelCount, frameCount, stepTime);
    var t := TailWrites(m, rangeCount, uid);
    TailWritesLayout(m, rangeCount, uid);
    assert t[..10] == m[..20][..10] == LeadBytes(channelDataOffset, minor, major, headerLength);
    assert t[10..20] == m[..20][10..20] == CountBytes(channelCount, frameCount, stepTime);
    assert m[23] == m[20..][3] == l[20..][3] == l[10..][13] == 0;
    assert t[20..] == TailBytes(rangeCount, uid);
    assert t == t[..10] + t[10..20] + t[20..];
  }

  class Header {
    const minorVersion: byte
    const majorVersion: byte
    const frameCount: UintCell
    const stepTime: UintCell
    const flags: UintCell
    const sparseRangeCount: UintCell
    const uid: UintCell
    const variables: seq<Variable>

    /** The constructor's parameter types: Uint32, Uint8, Uint8, Uint8, Uint64 and valid variables. */
    ghost predicate Valid()
      reads frameCount, stepTime, flags, sparseRangeCount, uid
    {
      frameCount.Valid() && frameCount.width == 32 &&
      stepTime.Valid() && stepTime.width == 8 &&
      flags.Valid() && flags.width == 8 &&
      sparseRangeCount.Valid() && sparseRangeCount.width == 8 &&
      uid.Valid() && uid.width == 64 &&
      AllValid(variables)
    }

    constructor (minorVersion: byte, majorVersion: byte, frameCount: UintCell, stepTime: UintCell,
                 flags: UintCell, sparseRangeCount: UintCell, uid: UintCell, variables: seq<Variable>)
      ensures this.minorVersion == minorVersion && this.majorVersion == majorVersion
      ensures this.frameCount == frameCount && this.stepTime == stepTime && this.flags == flags
      ensures this.sparseRangeCount == sparseRangeCount && this.uid == uid
      ensures this.variables == variables
    {
      this.minorVersion := minorVersion;
      this.majorVersion := majorVersion;
      this.frameCount := frameCount;
      this.stepTime := stepTime;
      this.flags := flags;
      this.sparseRangeCount := sparseRangeCount;
      this.uid := uid;
      this.variables := variables;
    }

    /** The header's current field values, as the bytes they are written as. */
    function Image(): Result<seq<byte>>
      reads frameCount, stepTime, flags, sparseRangeCount, uid
      requires Valid()
    {
      Capacities();
      Pow256Values();
      HeaderImage(minorVersion, majorVersion, frameCount.Int(), stepTime.Int(),
                  sparseRangeCount.Int(), uid.Int(), variables)
    }

    /** toBuffer(): writeHeader(this). */
    method ToBuffer() returns (r: Result<seq<byte>>)
      requires Valid()
      ensures r == Image()
    {
      r := WriteHeader(this);
    }
  }

  /** The header length writeHeader computes: a Uint16Clamped of 32 + 8 * 0 + 12 * R. */
  method HeaderLengthOf(rangeCount: byte) returns (n: nat)
    ensures n == HeaderLength(rangeCount) && n < Pow256(2)
  {
    Capacities();
    Pow256Values();
    var cell := new UintCell(16, true);
    cell := cell.From((32 + 8 * 0 + 12 * rangeCount) as real);
    n := cell.Int();
  }

  /** The channel count writeHeader computes: a Uint32Clamped of 12 * R. */
  method ChannelCountOf(rangeCount: byte) returns (n: nat)
    ensures n == ChannelCountField(rangeCount) && n < Pow256(4)
  {
    Capacities();
    Pow256Values();
    var cell := new UintCell(32, true);
    cell := cell.From((12 * rangeCount) as real);
    n := cell.Int();
  }

  /**
   * writeHeader(h): fills a zero-filled 32-byte buffer field by field; it
   * builds the variable records to find the channel data offset, and it reads
   * the header without changing it.
   */
  method WriteHeader(h: Header) returns (r: Result<seq<byte>>)
    requires h.Valid()
    ensures r == h.Image()
  {
    Capacities();
    r := WriteFields(h.minorVersion, h.majorVersion, h.frameCount.Int(), h.stepTime.Int(),
                     h.sparseRangeCount.Int(), h.uid.Int(), h.variables);
  }

  /** The body of writeHeader, on the values it reads from the header. */
  method WriteFields(minor: byte, major: byte, frameCount: nat, stepTime: byte, rangeCount: byte,
                     uid: nat, variables: seq<Variable>) returns (r: Result<seq<byte>>)
    requires AllValid(variables) && frameCount < Pow256(4)
    ensures r == HeaderImage(minor, major, frameCount, stepTime, rangeCount, uid, variables)
  {
    Capacities();
    Pow256Values();
    var buf := Alloc(32);
    var s := Set(buf, Magic, 0);
    ghost var s0 := Overwrite(Zeros(32), 0, Magic);
    assert buf[..] == s0;
    var w := WriteUIntLE(buf, minor, 6, 1);
    w := WriteUIntLE(buf, major, 7, 1);
    ghost var s1 := Overwrite(Overwrite(s0, 6, EncodeLE(minor, 1)), 7, EncodeLE(major, 1));
    assert buf[..] == s1;
    var headerLength := HeaderLengthOf(rangeCount);
    w := WriteUIntLE(buf, headerLength, 8, 2);
    ghost var s2 := Overwrite(s1, 8, EncodeLE(headerLength, 2));
    assert buf[..] == s2;
    var builtVariables := ToBuffers(variables);
    if builtVariables.Err? {
      return Err(builtVariables.error);
    }
    var channelDataOffset := headerLength + TotalLength(builtVariables.value);
    w := WriteUIntLE(buf, channelDataOffset, 4, 2);
    if w.Fail? {
      return Err(w.error);
    }
    assert buf[..] == Overwrite(s2, 4, EncodeLE(channelDataOffset, 2));
    assert buf[..] == LeadWrites(channelDataOffset, minor, major, headerLength);
    w := WriteCounts(buf, frameCount, stepTime, rangeCount, uid);
    if w.Fail? {
      return Err(w.error);
    }
    WritesLayOutHeader(channelDataOffset, minor, major, headerLength, ChannelCountField(rangeCount),
                       frameCount, stepTime, rangeCount, uid);
    r := Ok(buf[..]);
  }

  /** The writes of writeHeader from the channel count field on; only the uid can be out of range. */
  method WriteCounts(buf: array<byte>, frameCount: nat, stepTime: byte, rangeCount: byte, uid: nat)
    returns (w: Outcome)
    requires buf.Length == 32 && frameCount < Pow256(4)
    modifies buf
    ensures w == if uid < TwoTo63 then Pass else Fail(ValueOutOfRange)
    ensures w.Pass? ==>
      buf[..] == CountWrites(old(buf[..]), ChannelCountField(rangeCount), frameCount, stepTime,
                             rangeCount, uid)
  {
    var channelCount := ChannelCountOf(rangeCount);
    WriteCountFields(buf, channelCount, frameCount, stepTime);
    w := WriteTail(buf, rangeCount, uid);
  }

  /** The channel count, frame count, step time and flags writes, none of which can fail. */
  method WriteCountFields(buf: array<byte>, channelCount: nat, frameCount: nat, stepTime: byte)
    requires buf.Length == 32 && channelCount < Pow256(4) && frameCount < Pow256(4)
    modifies buf
    ensures buf[..] == CountFieldWrites(old(buf[..]), channelCount, frameCount, stepTime)
  {
    Pow256Values();
    ghost var s := buf[..];
    var w := WriteUIntLE(buf, channelCount, 10, 4);
    ghost var s1 := Overwrite(s, 10, EncodeLE(channelCount, 4));
    assert buf[..] == s1;
    w := WriteUIntLE(buf, frameCount, 14, 4);
    ghost var s3 := Overwrite(s1, 14, EncodeLE(frameCount, 4));
    assert buf[..] == s3;
    w := WriteUIntLE(buf, stepTime, 18, 1);
    ghost var s4 := Overwrite(s3, 18, EncodeLE(stepTime, 1));
    assert buf[..] == s4;
    w := WriteUIntLE(buf, 0, 19, 1);
  }

  /** The compression, range count and uid writes; the uid write fails from 2^63 on. */
  method WriteTail(buf: array<byte>, rangeCount: byte, uid: nat) returns (w: Outcome)
    requires buf.Length == 32
    modifies buf
    ensures w == if uid < TwoTo63 then Pass else Fail(ValueOutOfRange)
    ensures w.Pass? ==> buf[..] == TailWrites(old(buf[..]), rangeCount, uid)
  {
    Pow256Values();
    ghost var s := buf[..];
    w := WriteUIntLE(buf, 0, 20, 2);
    ghost var s6 := Overwrite(s, 20, EncodeLE(0, 2));
    assert buf[..] == s6;
    w := WriteUIntLE(buf, rangeCount, 22, 1);
    ghost var s7 := Overwrite(s6, 22, EncodeLE(rangeCount, 1));
    assert buf[..] == s7;
    w := WriteBigInt64LE(buf, uid, 24);
    if w.Pass? {
      assert uid % Pow256(8) == uid;
      assert buf[..] == Overwrite(s7, 24, EncodeLE(uid, 8));
    }
  }
}
