/**
 * How a frame buffer addresses channels (FrameData in fseq.ts): the sparse
 * ranges are packed one after another into one buffer, and a channel is
 * stored at the total count of the ranges before its own plus its distance
 * from its range's start.
 */
module Channels {
  import opened Outcomes

  /** A sparse range's field values: start channel and channel count. */
  datatype Span = Span(start: nat, count: nat)

  /** Range membership as FrameData tests it: strictly inside at both ends. */
  predicate InRange(c: int, r: Span)
  {
    r.start < c < r.start + r.count
  }

  /** findIndex with InRange: the first range holding c, or -1 when none does. */
  function FindRange(spans: seq<Span>, c: int): (r: int)
    ensures -1 <= r < |spans|
    ensures r == -1 <==> forall i :: 0 <= i < |spans| ==> !InRange(c, spans[i])
    ensures r >= 0 ==> InRange(c, spans[r]) && forall i :: 0 <= i < r ==> !InRange(c, spans[i])
  {
    if |spans| == 0 then -1
    else if InRange(c, spans[0]) then 0
    else
      var k := FindRange(spans[1..], c);
      assert forall i :: 1 <= i < |spans| ==> spans[i] == spans[1..][i - 1];
      if k == -1 then -1 else k + 1
  }

  /** The sum of the channel counts, which is a frame buffer's length when it is created. */
  function Total(spans: seq<Span>): nat
  {
    if |spans| == 0 then 0 else Total(spans[..|spans| - 1]) + spans[|spans| - 1].count
  }

  /**
   * The for loop that accumulates the data index: starting at index i with
   * sum acc, it adds the counts of the ranges before `range` and stops early
   * once the sum reaches `cap`, the buffer length fixed when the frame was made.
   */
  function Scan(spans: seq<Span>, range: nat, cap: int, i: nat, acc: int): (r: int)
    requires range <= |spans| && i <= range
    ensures acc <= r
    ensures acc >= cap ==> r == acc
    decreases range - i
  {
    if i < range && acc < cap then Scan(spans, range, cap, i + 1, acc + spans[i].count) else acc
  }

  /** The offset setChannelValue writes channel c at, or None when no range holds c. */
  function ChannelOffset(spans: seq<Span>, cap: int, c: int): Option<int>
  {
    var range := FindRange(spans, c);
    if range == -1 then None
    else Some(Scan(spans, range, cap, 0, 0) + (c - spans[range].start))
  }

  /** The prefix sums never decrease. */
  lemma {:induction false} TotalMonotone(spans: seq<Span>, i: nat, j: nat)
    requires i <= j <= |spans|
    ensures Total(spans[..i]) <= Total(spans[..j])
    decreases j - i
  {
    if i < j {
      TotalMonotone(spans, i, j - 1);
      assert spans[..j][..j - 1] == spans[..j - 1];
    }
  }

  /** Extending a prefix by one range adds that range's count. */
  lemma TotalStep(spans: seq<Span>, i: nat)
    requires i < |spans|
    ensures Total(spans[..i + 1]) == Total(spans[..i]) + spans[i].count
  {
    assert spans[..i + 1][..i] == spans[..i];
  }

  /** While every prefix before `range` is below cap, the loop runs to `range` and sums those counts. */
  lemma {:induction false} ScanSumsPrefix(spans: seq<Span>, range: nat, cap: int, i: nat)
    requires range <= |spans| && i <= range
    requires Total(spans[..range]) < cap || range == 0
    ensures Scan(spans, range, cap, i, Total(spans[..i])) == Total(spans[..range])
    decreases range - i
  {
    if i < range {
      TotalMonotone(spans, i, range);
      TotalStep(spans, i);
      ScanSumsPrefix(spans, range, cap, i + 1);
    }
  }

  /**
   * While the ranges are those the buffer was sized for (cap is their total),
   * the early stop never fires: a channel found in range r is stored at the
   * counts of ranges 0..r-1 plus its distance from r's start, which is inside
   * the buffer and past the range's first byte.
   */
  lemma ChannelOffsetExact(spans: seq<Span>, c: int)
    requires FindRange(spans, c) >= 0
    ensures var r := FindRange(spans, c);
      ChannelOffset(spans, Total(spans), c) ==
        Some(Total(spans[..r]) + (c - spans[r].start)) &&
      Total(spans[..r]) < Total(spans[..r]) + (c - spans[r].start) < Total(spans[..r + 1]) &&
      Total(spans[..r]) + (c - spans[r].start) < Total(spans)
  {
    var r := FindRange(spans, c);
    TotalStep(spans, r);
    TotalMonotone(spans, r + 1, |spans|);
    assert spans[..|spans|] == spans;
    ScanSumsPrefix(spans, r, Total(spans), 0);
    assert spans[..0] == [];
  }

  /**
   * Distinct channels that some range holds land at distinct offsets while the
   * ranges are those the buffer was sized for, even when ranges overlap.
   */
  lemma OffsetsInjective(spans: seq<Span>, c1: int, c2: int)
    requires FindRange(spans, c1) >= 0 && FindRange(spans, c2) >= 0 && c1 != c2
    ensures ChannelOffset(spans, Total(spans), c1) != ChannelOffset(spans, Total(spans), c2)
  {
    var r1, r2 := FindRange(spans, c1), FindRange(spans, c2);
    ChannelOffsetExact(spans, c1);
    ChannelOffsetExact(spans, c2);
    if r1 < r2 {
      TotalMonotone(spans, r1 + 1, r2);
    } else if r2 < r1 {
      TotalMonotone(spans, r2 + 1, r1);
    }
  }

  /** No range holds channel 0 strictly inside, so it cannot be set. */
  lemma ChannelZeroUnsettable(spans: seq<Span>)
    ensures FindRange(spans, 0) == -1 && ChannelOffset(spans, Total(spans), 0) == None
  {
  }

  /**
   * A range's first channel is settable through an earlier range that holds
   * it strictly: with ranges (0, 10) and (5, 10), channel 5 is found in the
   * first range and stored at offset 5.
   */
  lemma FirstChannelThroughOverlap()
    ensures ChannelOffset([Span(0, 10), Span(5, 10)], 20, 5) == Some(5)
    ensures !InRange(5, Span(5, 10))
  {
    var spans := [Span(0, 10), Span(5, 10)];
    assert InRange(5, spans[0]);
    assert FindRange(spans, 5) == 0;
  }

  /**
   * A frame made while the file had one range (0, 4) has 4 bytes. After two
   * more ranges are added to the shared list, channel 21 is found in the third
   * range, but the loop stops after the first range, giving offset 4 + 1 = 5
   * instead of 9 (a write the 4-byte buffer drops).
   */
  lemma StaleFrameStopsEarly()
    ensures ChannelOffset([Span(0, 4), Span(10, 4), Span(20, 4)], 4, 21) == Some(5)
    ensures Total([Span(0, 4), Span(10, 4), Span(20, 4)]) == 12
  {
    var spans := [Span(0, 4), Span(10, 4), Span(20, 4)];
    assert !InRange(21, spans[0]) && !InRange(21, spans[1]) && InRange(21, spans[2]);
    assert FindRange(spans, 21) == 2;
    assert Scan(spans, 2, 4, 0, 0) == 4;
    assert spans[..0] == [] && spans[..3] == spans;
    TotalStep(spans, 0);
    TotalStep(spans, 1);
    TotalStep(spans, 2);
  }
}
