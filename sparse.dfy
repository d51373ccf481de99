/**
 * Sparse channel ranges (sparse.ts): a (start channel, channel count) pair of
 * Uint24 cells, meant to serialise to a 6-byte record with the start at
 * offset 0 and the count at offset 3.
 */
module Sparse {
  import opened Outcomes
  import opened Buffers
  import opened Uint

  /**
   * How SparseRange.toBuffer ends for given field values: it never returns.
   * A positive start makes the first toBytes run forever; a zero start and a
   * positive count make the second one run forever; two zeros give 24 zero
   * bytes for the start, which `set` cannot fit into the 6-byte record.
   */
  function RangeRecord(start: int, count: int): Completion<seq<byte>>
  {
    if start > 0 || count > 0 then Diverges else Threw(OffsetOutOfBounds)
  }

  /** A Uint24 cell (either policy): what the constructor's parameter types demand. */
  ghost predicate IsUint24(c: UintCell)
    reads c
  {
    c.Valid() && c.width == 24
  }

  class SparseRange {
    const startChannel: UintCell
    const channelCount: UintCell

    ghost predicate Valid()
      reads startChannel, channelCount
    {
      IsUint24(startChannel) && IsUint24(channelCount)
    }

    /** Stores both cells as given (by reference). */
    constructor (startChannel: UintCell, channelCount: UintCell)
      ensures this.startChannel == startChannel && this.channelCount == channelCount
    {
      this.startChannel := startChannel;
      this.channelCount := channelCount;
    }

    /**
     * toBuffer(): allocates 6 zero bytes, encodes both fields with toBytes and
     * copies them to offsets 0 and 3. It never returns normally, and it
     * changes neither field.
     */
    method ToBuffer(fuel: nat) returns (r: Completion<seq<byte>>)
      requires Valid()
      ensures r == RangeRecord(startChannel.Int(), channelCount.Int())
      ensures !r.Returned?
      ensures r.Diverges? <==> startChannel.Int() > 0 || channelCount.Int() > 0
      ensures r.Threw? ==> r.error == OffsetOutOfBounds
    {
      var bytes := Alloc(6);
      var startBytes := ToBytes(startChannel, fuel);
      if !startBytes.Returned? {
        return Diverges;
      }
      var countBytes := ToBytes(channelCount, fuel);
      if !countBytes.Returned? {
        return Diverges;
      }
      // toBytes gave log2(2^24) = 24 bytes; the copy to offset 0 already
      // overflows the 6-byte record, so the copy to offset 3 is never reached.
      var s := Set(bytes, startBytes.value, 0);
      assert s.Fail?;
      return Threw(s.error);
    }
  }
}
