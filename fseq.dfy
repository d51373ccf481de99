/**
 * The sequence file (fseq.ts): the compression setting, the frame buffers,
 * the file's ordered lists of frames, variables and sparse ranges, and the
 * serialisation of the whole file.
 */
module Fseq {
  import opened Outcomes
  import opened Buffers
  import opened Uint
  import opened Variables
  import opened Sparse
  import opened Headers
  import opened Channels
  import opened JsArrays

  /** The module-level compression setting: only "none" is ever accepted. */
  class CompressionSetting {
    var compressionMode: CompressionType

    /** The setting starts as "none". */
    constructor ()
      ensures compressionMode == NoCompression
    {
      compressionMode := NoCompression;
    }

    /** setCompression(c): throws for anything but "none", leaving the setting as it was. */
    method SetCompression(c: CompressionType) returns (r: Outcome)
      modifies this
      ensures r == if c == NoCompression then Pass else Fail(UnsupportedCompression)
      ensures compressionMode == if c == NoCompression then c else old(compressionMode)
    {
      if c != NoCompression {
        return Fail(UnsupportedCompression);
      }
      compressionMode := c;
      r := Pass;
    }
  }

  /** Whatever is called on it, the setting stays "none". */
  method CompressionStaysNone(s: CompressionSetting, c: CompressionType) returns (r: Outcome)
    requires s.compressionMode == NoCompression
    modifies s
    ensures s.compressionMode == NoCompression
    ensures r.Fail? <==> c != NoCompression
  {
    r := s.SetCompression(c);
  }

  /** A list of sparse ranges held by reference: a file and every frame made from it share one. */
  class RangeList {
    var items: seq<SparseRange>

    constructor ()
      ensures items == []
    {
      items := [];
    }
  }

  /** The Uint24 cells of a list of ranges. */
  ghost function Cells(rs: seq<SparseRange>): set<object>
  {
    (set r | r in rs :: r.startChannel as object) + (set r | r in rs :: r.channelCount as object)
  }

  /** Every range holds two valid Uint24 cells. */
  ghost predicate RangesValid(rs: seq<SparseRange>)
    reads Cells(rs)
  {
    forall r :: r in rs ==> r.Valid()
  }

  /** The current field values of a list of ranges. */
  function Spans(rs: seq<SparseRange>): (r: seq<Span>)
    reads Cells(rs)
    requires RangesValid(rs)
    ensures |r| == |rs|
    ensures forall i :: 0 <= i < |rs| ==>
      r[i].start == rs[i].startChannel.Int() && r[i].count == rs[i].channelCount.Int()
  {
    if |rs| == 0 then []
    else
      var last := rs[|rs| - 1];
      var init := rs[..|rs| - 1];
      assert last in rs && forall i :: 0 <= i < |init| ==> init[i] == rs[i];
      Spans(init) + [Span(last.startChannel.Int(), last.channelCount.Int())]
  }

  /** A TypedArray index write: in bounds it sets one byte, past the end it does nothing. */
  function WriteByte(s: seq<byte>, k: int, v: byte): (r: seq<byte>)
    ensures |r| == |s|
    ensures forall j :: 0 <= j < |s| && j != k ==> r[j] == s[j]
    ensures 0 <= k < |s| ==> r[k] == v
  {
    if 0 <= k < |s| then s[k := v] else s
  }

  /** One frame's channel values, packed range after range into one buffer. */
  class FrameData {
    const ranges: RangeList
    const channelCount: nat
    const data: array<byte>

    /** The buffer keeps the length it was given at creation. */
    ghost predicate Valid()
    {
      data.Length == channelCount
    }

    /**
     * A frame over the given (shared) range list: its buffer is zero-filled
     * and as long as the sum of the ranges' counts at this moment.
     */
    constructor (ranges: RangeList)
      requires RangesValid(ranges.items)
      ensures Valid() && this.ranges == ranges
      ensures channelCount == old(Total(Spans(ranges.items)))
      ensures fresh(data) && data[..] == Zeros(channelCount)
    {
      this.ranges := ranges;
      var count := Total(Spans(ranges.items));
      channelCount := count;
      data := new byte[count](_ => 0);
    }

    /**
     * setChannelValue(channel, value): throws RangeError, changing nothing,
     * unless some range holds the channel (strictly); otherwise the first such
     * range is used and the value is written at the offset the data index loop
     * computes, which the buffer silently ignores when it is past the end.
     */
    method SetChannelValue(channel: UintCell, value: UintCell) returns (r: Outcome)
      requires Valid() && RangesValid(ranges.items)
      requires channel.Valid() && channel.width == 24 && value.Valid() && value.width == 8
      modifies data
      ensures var offset := ChannelOffset(old(Spans(ranges.items)), channelCount, old(channel.Int()));
        r == (if offset.None? then Fail(ChannelNotInRanges) else Pass) &&
        data[..] == if offset.None? then old(data[..])
                    else WriteByte(old(data[..]), offset.value, old(value.Int()))
    {
      Capacities();
      var spans := Spans(ranges.items);
      var c := channel.Int();
      var range := FindRange(spans, c);
      if range == -1 {
        return Fail(ChannelNotInRanges);
      }
      var dataIdx := DataIndex(range);
      assert Spans(ranges.items) == spans;
      assert dataIdx == Scan(spans, range, channelCount, 0, 0);
      assert spans[range].start == ranges.items[range].startChannel.Int();
      dataIdx := dataIdx + (c - ranges.items[range].startChannel.Int());
      assert ChannelOffset(spans, channelCount, c) == Some(dataIdx);
      if 0 <= dataIdx < data.Length {
        data[dataIdx] := value.Int();
      }
      r := Pass;
    }

    /**
     * The data index loop of setChannelValue: the counts of the ranges before
     * `range`, added one by one while the sum is below the buffer length.
     */
    method DataIndex(range: nat) returns (dataIdx: int)
      requires RangesValid(ranges.items) && range <= |ranges.items|
      ensures dataIdx == Scan(Spans(ranges.items), range, channelCount, 0, 0)
    {
      ghost var spans := Spans(ranges.items);
      dataIdx := 0;
      var i := 0;
      while i < range && dataIdx < channelCount
        invariant 0 <= i <= range
        invariant Scan(spans, range, channelCount, i, dataIdx) == Scan(spans, range, channelCount, 0, 0)
        decreases range - i
      {
        dataIdx := dataIdx + ranges.items[i].channelCount.Int();
        i := i + 1;
      }
    }

    /** toBuffer(): the frame's own buffer, not a copy. */
    method ToBuffer() returns (b: array<byte>)
      ensures b == data
    {
      b := data;
    }
  }

  /**
   * While a frame's ranges are those it was sized for, a write to a channel
   * some range holds changes exactly one byte, inside the buffer, to the value.
   */
  lemma FreshFrameWrite(s: seq<byte>, spans: seq<Span>, c: int, v: byte)
    requires |s| == Total(spans) && FindRange(spans, c) >= 0
    ensures var offset := ChannelOffset(spans, |s|, c);
      offset.Some? && 0 <= offset.value < |s| &&
      WriteByte(s, offset.value, v)[offset.value] == v &&
      forall j :: 0 <= j < |s| && j != offset.value ==> WriteByte(s, offset.value, v)[j] == s[j]
  {
    ChannelOffsetExact(spans, c);
  }

  /** The step time the header receives for a non-zero fps: Uint8 of 1 / fps. */
  function StepTime(fps: real): (r: byte)
    requires fps != 0.0
    ensures 0.0 <= 1.0 / fps < 256.0 ==> r == (1.0 / fps).Floor
    ensures fps > 1.0 ==> r == 0
  {
    Capacities();
    assert fps > 1.0 ==> 0.0 < 1.0 / fps < 1.0;
    NormalizeInRange(MaxInt(8), false, 1.0 / fps);
    Normalize(MaxInt(8), false, 1.0 / fps)
  }

  /** For a positive whole fps the step time is 1 div fps: 1 at 1 fps and 0 from 2 fps up. */
  lemma StepTimeOfWholeFps(fps: nat)
    requires fps >= 1
    ensures StepTime(fps as real) == 1 / fps
    ensures fps >= 2 ==> StepTime(fps as real) == 0
  {
    Capacities();
    var x := 1.0 / fps as real;
    if fps == 1 {
      assert x == 1.0;
    } else {
      assert 0.0 < x < 1.0;
      assert x.Floor == 0;
    }
  }

  /** The outcome of a range record lifted to the list of records. */
  function Abrupt<T, U>(o: Completion<T>): Completion<U>
    requires !o.Returned?
  {
    if o.Threw? then Threw(o.error) else Diverges
  }

  /** buildRanges(): the records of the ranges in list order, stopping at the first that does not return. */
  function RangeRecords(spans: seq<Span>): Completion<seq<seq<byte>>>
  {
    if |spans| == 0 then Returned([])
    else
      match RangeRecord(spans[0].start, spans[0].count)
      case Returned(b) =>
        (match RangeRecords(spans[1..])
         case Returned(bs) => Returned([b] + bs)
         case Threw(e) => Threw(e)
         case Diverges => Diverges)
      case Threw(e) => Threw(e)
      case Diverges => Diverges
  }

  /** Because no range record returns, building them returns exactly when there are none. */
  lemma RangeRecordsOnlyEmpty(spans: seq<Span>)
    ensures RangeRecords(spans).Returned? <==> |spans| == 0
    ensures |spans| > 0 ==>
      RangeRecords(spans) == Abrupt(RangeRecord(spans[0].start, spans[0].count))
  {
  }

  /** buildFrames(): each frame's current buffer contents, in list order. */
  function FrameBytes(fs: seq<FrameData>): (r: seq<seq<byte>>)
    reads set f | f in fs :: f.data
    ensures |r| == |fs|
    ensures forall i :: 0 <= i < |fs| ==> r[i] == fs[i].data[..]
  {
    if |fs| == 0 then [] else FrameBytes(fs[..|fs| - 1]) + [fs[|fs| - 1].data[..]]
  }

  /** A header's bytes, no range records, then variable records and frame buffers, laid end to end. */
  lemma FlattenParts(h: seq<byte>, vs: seq<seq<byte>>, fs: seq<seq<byte>>)
    ensures Flatten([h] + [] + vs + fs) == h + Flatten(vs) + Flatten(fs)
    ensures |Flatten([h] + [] + vs + fs)| == |h| + TotalLength(vs) + TotalLength(fs)
  {
    assert [h] + [] + vs + fs == [h] + vs + fs;
    FlattenAppend([h] + vs, fs);
    FlattenAppend([h], vs);
    var none: seq<seq<byte>> := [];
    assert Flatten([h]) == h by {
      assert [h][..0] == none;
    }
    FlattenLength(vs);
    FlattenLength(fs);
  }

  /** Splicing valid variables into a list of valid variables leaves only valid variables. */
  lemma SpliceKeepsValid(vs: seq<Variable>, start: int, deleteCount: int, items: seq<Variable>)
    requires AllValid(vs) && AllValid(items)
    ensures AllValid(Splice(vs, start, deleteCount, items).result)
  {
    var r := Splice(vs, start, deleteCount, items).result;
    SpliceMembers(vs, start, deleteCount, items);
    forall i | 0 <= i < |r|
      ensures r[i].Valid()
    {
      assert r[i] in r;
    }
  }

  /** The values a file's bytes depend on: frame buffer contents, variables, fps, range field values and uid. */
  datatype Contents = Contents(frames: seq<seq<byte>>, variables: seq<Variable>, fps: real,
                               spans: seq<Span>, uid: nat)

  /**
   * constructHeader(): a header of version 0.2 with frame count Uint32 of
   * the number of frames, step time Uint8 of 1 / fps, flags 0, range count
   * Uint8 of the number of ranges, the uid and the variables. With fps 0,
   * 1 / fps is Infinity and Uint8's wrap loop never ends.
   */
  function HeaderOf(c: Contents): Completion<seq<byte>>
    requires AllValid(c.variables)
  {
    if c.fps == 0.0 then Diverges
    else
      Pow256Values();
      match HeaderImage(0, 2, |c.frames| % Pow256(4), StepTime(c.fps), |c.spans| % 256, c.uid, c.variables)
      case Ok(b) => Returned(b)
      case Err(e) => Threw(e)
  }

  /** A header that returns has built every variable record. */
  lemma HeaderRecordsOk(c: Contents)
    requires AllValid(c.variables)
    ensures HeaderOf(c).Returned? ==> c.fps != 0.0 && Records(c.variables).Ok?
  {
    if c.fps != 0.0 {
      Pow256Values();
      HeaderImageOk(0, 2, |c.frames| % Pow256(4), StepTime(c.fps), |c.spans| % 256, c.uid, c.variables);
    }
  }

  /** toBuffer() for given contents: the parts in order, or the first part that does not return. */
  function ImageOf(c: Contents): Completion<seq<byte>>
    requires AllValid(c.variables)
  {
    match HeaderOf(c)
    case Diverges => Diverges
    case Threw(e) => Threw(e)
    case Returned(h) =>
      match RangeRecords(c.spans)
      case Diverges => Diverges
      case Threw(e) => Threw(e)
      case Returned(rs) =>
        match Records(c.variables)
        case Err(e) => Threw(e)
        case Ok(vs) => Returned(Flatten([h] + rs + vs + c.frames))
  }

  /**
   * A file serialises exactly when fps is not 0, there are no ranges, every
   * variable record fits, the header plus the records fit in the 16-bit
   * channel data offset, and the uid is below 2^63.
   */
  lemma ImageReturns(c: Contents)
    requires AllValid(c.variables)
    ensures ImageOf(c).Returned? <==>
      c.fps != 0.0 && |c.spans| == 0 && Records(c.variables).Ok? &&
      32 + TotalLength(Records(c.variables).value) <= 65535 && c.uid < TwoTo63
  {
    RangeRecordsOnlyEmpty(c.spans);
    if c.fps != 0.0 {
      Pow256Values();
      HeaderImageOk(0, 2, |c.frames| % Pow256(4), StepTime(c.fps), |c.spans| % 256, c.uid, c.variables);
    }
  }

  /**
   * A serialised file is its 32-byte header (frame count mod 2^32, step
   * time, no ranges) followed by the variable records and the frame
   * buffers in list order.
   */
  lemma ImageLayout(c: Contents)
    requires AllValid(c.variables) && ImageOf(c).Returned?
    ensures c.fps != 0.0 && Records(c.variables).Ok? && c.spans == []
    ensures var vs := Records(c.variables).value;
      ImageOf(c).value ==
        HeaderImage(0, 2, |c.frames| % Pow256(4), StepTime(c.fps), 0, c.uid, c.variables).value +
        Flatten(vs) + Flatten(c.frames) &&
      |ImageOf(c).value| == 32 + TotalLength(vs) + TotalLength(c.frames)
  {
    ImageReturns(c);
    Pow256Values();
    var h := HeaderImage(0, 2, |c.frames| % Pow256(4), StepTime(c.fps), 0, c.uid, c.variables).value;
    var vs := Records(c.variables).value;
    HeaderImageLayout(0, 2, |c.frames| % Pow256(4), StepTime(c.fps), 0, c.uid, c.variables);
    FlattenParts(h, vs, c.frames);
  }

  /**
   * The header constructHeader builds from the file's frame count, fps,
   * range count, uid and variables: the counts and 1 / fps pass through new
   * Uint32 and Uint8 cells, so they arrive reduced to the cells' widths.
   */
  method BuildHeader(frameCount: nat, fps: real, rangeCount: nat, uid: UintCell, variables: seq<Variable>)
    returns (b: Result<seq<byte>>)
    requires fps != 0.0 && uid.Valid() && uid.width == 64 && AllValid(variables)
    ensures b == HeaderImage(0, 2, frameCount % Pow256(4), StepTime(fps), rangeCount % 256, uid.Int(), variables)
  {
    Capacities();
    Pow256Values();
    var frames := new UintCell(32, false);
    frames := frames.From(frameCount as real);
    assert (frameCount as real).Floor == frameCount;
    var stepTime := new UintCell(8, false);
    stepTime := stepTime.From(1.0 / fps);
    var flags := new UintCell(8, false);
    flags := flags.From(0.0);
    var ranges := new UintCell(8, false);
    ranges := ranges.From(rangeCount as real);
    assert (rangeCount as real).Floor == rangeCount;
    var header := new Header(0, 2, frames, stepTime, flags, ranges, uid, variables);
    b := header.ToBuffer();
  }

  /** The sequence file: ordered lists of frames, variables and ranges, an fps and a uid. */
  class FseqFile {
    var frames: seq<FrameData>
    var variables: seq<Variable>
    var fps: real
    const channelRanges: RangeList
    var uid: UintCell
    /** The objects the file's contents depend on: itself, the range list and its cells, the uid and the frame buffers. */
    ghost var Repr: set<object>

    /** What the fields' types demand: valid variables and ranges, a Uint64 uid, and frames of fixed length. */
    ghost predicate Valid()
      reads this, Repr
    {
      this in Repr && channelRanges in Repr && uid in Repr &&
      (forall r :: r in channelRanges.items ==>
        r.startChannel in Repr && r.channelCount in Repr && r.Valid()) &&
      (forall f :: f in frames ==> f.data in Repr && f.Valid()) &&
      AllValid(variables) && uid.Valid() && uid.width == 64
    }

    /** A new file: no frames, variables or ranges, 30 fps and uid 0. */
    constructor ()
      ensures Valid() && fresh(channelRanges) && fresh(uid) && Repr == {this, channelRanges, uid}
      ensures frames == [] && variables == [] && fps == 30.0 && channelRanges.items == []
      ensures uid.Int() == 0 && !uid.clamp
    {
      frames := [];
      variables := [];
      fps := 30.0;
      channelRanges := new RangeList();
      Capacities();
      var u := new UintCell(64, false);
      u := u.From(0.0);
      assert (0.0).Floor == 0 && u.Int() == 0;
      uid := u;
      Repr := {this, channelRanges, uid};
    }

    /** createFrame(): a zeroed frame sharing this file's range list. */
    method CreateFrame() returns (f: FrameData)
      requires Valid()
      ensures fresh(f) && fresh(f.data) && f.Valid() && f.ranges == channelRanges
      ensures f.channelCount == old(Total(Spans(channelRanges.items)))
      ensures f.data[..] == Zeros(f.channelCount)
    {
      f := new FrameData(channelRanges);
    }

    /** addFrame(f): appends f. */
    method AddFrame(f: FrameData)
      requires Valid() && f.Valid()
      modifies this`frames, this`Repr
      ensures Valid() && frames == old(frames) + [f] && Repr == old(Repr) + {f.data}
    {
      frames := frames + [f];
      Repr := Repr + {f.data};
    }

    /** insertFrame(f, idx): splice(idx, 0, f). */
    method InsertFrame(f: FrameData, idx: int)
      requires Valid() && f.Valid()
      modifies this`frames, this`Repr
      ensures Valid() && frames == Splice(old(frames), idx, 0, [f]).result && Repr == old(Repr) + {f.data}
    {
      var sp := Splice(frames, idx, 0, [f]);
      SpliceMembers(frames, idx, 0, [f]);
      frames := sp.result;
      Repr := Repr + {f.data};
    }

    /** replaceFrame(idx, f): splice(idx, 1, f)[0], which is undefined (None) when nothing was removed. */
    method ReplaceFrame(idx: int, f: FrameData) returns (removed: Option<FrameData>)
      requires Valid() && f.Valid()
      modifies this`frames, this`Repr
      ensures var sp := Splice(old(frames), idx, 1, [f]);
        Valid() && frames == sp.result && Repr == old(Repr) + {f.data} &&
        removed == if |sp.removed| == 0 then None else Some(sp.removed[0])
    {
      var sp := Splice(frames, idx, 1, [f]);
      SpliceMembers(frames, idx, 1, [f]);
      frames := sp.result;
      Repr := Repr + {f.data};
      removed := if |sp.removed| == 0 then None else Some(sp.removed[0]);
    }

    /** addVariable(v): appends v. */
    method AddVariable(v: Variable)
      requires Valid() && v.Valid()
      modifies this`variables
      ensures Valid() && variables == old(variables) + [v]
    {
      variables := variables + [v];
    }

    /** removeVariable(v): removeVariableAt(indexOf(v)). */
    method RemoveVariable(v: Variable)
      requires Valid()
      modifies this`variables
      ensures Valid() && variables == Splice(old(variables), IndexOf(old(variables), v), 1, []).result
    {
      RemoveVariableAt(IndexOf(variables, v));
    }

    /** removeVariableAt(idx): splice(idx, 1). */
    method RemoveVariableAt(idx: int)
      requires Valid()
      modifies this`variables
      ensures Valid() && variables == Splice(old(variables), idx, 1, []).result
    {
      SpliceKeepsValid(variables, idx, 1, []);
      variables := Splice(variables, idx, 1, []).result;
    }

    /** replaceVariable(v1, v2): replaceVariableAt(indexOf(v1), v2). */
    method ReplaceVariable(v1: Variable, v2: Variable)
      requires Valid() && v2.Valid()
      modifies this`variables
      ensures Valid()
      ensures variables == Splice(old(variables), IndexOf(old(variables), v1), 1, [v2]).result
    {
      ReplaceVariableAt(IndexOf(variables, v1), v2);
    }

    /** replaceVariableAt(idx, v): splice(idx, 1, v). */
    method ReplaceVariableAt(idx: int, v: Variable)
      requires Valid() && v.Valid()
      modifies this`variables
      ensures Valid() && variables == Splice(old(variables), idx, 1, [v]).result
    {
      SpliceKeepsValid(variables, idx, 1, [v]);
      variables := Splice(variables, idx, 1, [v]).result;
    }

    /** addChannelRange(r): appends r to the shared list, so every frame made from this file sees it. */
    method AddChannelRange(r: SparseRange)
      requires Valid() && r.Valid()
      modifies channelRanges, this`Repr
      ensures Valid() && channelRanges.items == old(channelRanges.items) + [r]
      ensures Repr == old(Repr) + {r.startChannel, r.channelCount}
    {
      channelRanges.items := channelRanges.items + [r];
      Repr := Repr + {r.startChannel, r.channelCount};
    }

    /** removeChannelRange(r): splice(indexOf(r), 1) on the shared list. */
    method RemoveChannelRange(r: SparseRange)
      requires Valid()
      modifies channelRanges
      ensures Valid()
      ensures channelRanges.items ==
        Splice(old(channelRanges.items), IndexOf(old(channelRanges.items), r), 1, []).result
    {
      var items := channelRanges.items;
      var k := IndexOf(items, r);
      var rest := Splice(items, k, 1, []).result;
      SpliceMembers(items, k, 1, []);
      channelRanges.items := rest;
    }

    /** setUID(uid): keeps the given cell (by reference). */
    method SetUID(uid: UintCell)
      requires Valid() && uid.Valid() && uid.width == 64
      modifies this`uid, this`Repr
      ensures Valid() && this.uid == uid && Repr == old(Repr) + {uid}
    {
      this.uid := uid;
      Repr := Repr + {uid};
    }

    /** The values the file's bytes depend on, read from its current state. */
    function Snapshot(): (c: Contents)
      reads this, Repr
      requires Valid()
      ensures AllValid(c.variables)
    {
      Contents(FrameBytes(frames), variables, fps, Spans(channelRanges.items), uid.Int())
    }

    /** toBuffer(): the header, the range records, the variable records and the frame buffers, concatenated. */
    function Image(): (r: Completion<seq<byte>>)
      reads this, Repr
      requires Valid()
    {
      ImageOf(Snapshot())
    }

    /** The header of constructHeader, built with the Uint cells the source uses. */
    method ConstructHeader() returns (r: Completion<seq<byte>>)
      requires Valid()
      ensures Valid() && Snapshot() == old(Snapshot())
      ensures r == HeaderOf(Snapshot())
    {
      if fps == 0.0 {
        // 1 / 0 is Infinity: Uint8's fix would subtract 256 forever.
        return Diverges;
      }
      ghost var c := Snapshot();
      assert |c.frames| == |frames| && |c.spans| == |channelRanges.items|;
      var b := BuildHeader(|frames|, fps, |channelRanges.items|, uid, variables);
      r := match b
        case Ok(bytes) => Returned(bytes)
        case Err(e) => Threw(e);
    }

    /** buildRanges(): each range's toBuffer in list order; the first one never returns. */
    method BuildRanges(fuel: nat) returns (r: Completion<seq<seq<byte>>>)
      requires Valid()
      ensures Valid() && Snapshot() == old(Snapshot())
      ensures r == RangeRecords(Spans(channelRanges.items))
    {
      var items := channelRanges.items;
      RangeRecordsOnlyEmpty(Spans(items));
      if |items| == 0 {
        return Returned([]);
      }
      var first := items[0].ToBuffer(fuel);
      r := Abrupt(first);
    }

    /** buildVariables(): each variable's record in list order. */
    method BuildVariables() returns (r: Result<seq<seq<byte>>>)
      requires Valid()
      ensures Valid() && Snapshot() == old(Snapshot())
      ensures r == Records(variables)
    {
      r := ToBuffers(variables);
    }

    /** buildFrames(): each frame's buffer in list order. */
    method BuildFrames() returns (r: seq<seq<byte>>)
      requires Valid()
      ensures Valid() && Snapshot() == old(Snapshot())
      ensures r == FrameBytes(frames)
    {
      r := [];
      for i := 0 to |frames|
        invariant r == FrameBytes(frames[..i])
      {
        var b := frames[i].ToBuffer();
        assert frames[..i + 1][..i] == frames[..i];
        r := r + [b[..]];
      }
      assert frames[..|frames|] == frames;
    }

    /** toBuffer(): builds the parts in source order and concatenates them, changing nothing. */
    method ToBuffer(fuel: nat) returns (r: Completion<seq<byte>>)
      requires Valid()
      ensures r == Image()
    {
      ghost var c := Snapshot();
      var header := ConstructHeader();
      HeaderRecordsOk(c);
      if !header.Returned? {
        return Abrupt(header);
      }
      var ranges := BuildRanges(fuel);
      if !ranges.Returned? {
        return Abrupt(ranges);
      }
      var vars := BuildVariables();
      // constructHeader has already built every variable record.
      assert vars.Ok?;
      var fs := BuildFrames();
      r := Returned(Flatten([header.value] + ranges.value + vars.value + fs));
    }
  }

  /** Serialising twice gives the same result: toBuffer reads the file but does not change it. */
  method ToBufferTwice(file: FseqFile, fuel: nat) returns (first: Completion<seq<byte>>,
                                                            second: Completion<seq<byte>>)
    requires file.Valid()
    ensures first == second && first == file.Image()
  {
    first := file.ToBuffer(fuel);
    second := file.ToBuffer(fuel);
  }
}
