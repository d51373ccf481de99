/**
 * Byte buffers with the semantics of Node's Buffer (a Uint8Array): zero-filled
 * allocation, TypedArray `set`, and the little-endian `write*` family.
 */
module Buffers {
  import opened Outcomes

  type byte = x: int | 0 <= x < 256

  /** 2^63: the bound of a signed 64-bit integer. */
  const TwoTo63: int := 0x8000_0000_0000_0000

  function Pow256(n: nat): (r: nat)
    ensures r >= 1
  {
    if n == 0 then 1 else 256 * Pow256(n - 1)
  }

  lemma Pow256Values()
    ensures Pow256(1) == 0x100 && Pow256(2) == 0x1_0000 && Pow256(3) == 0x100_0000
    ensures Pow256(4) == 0x1_0000_0000 && Pow256(8) == 0x1_0000_0000_0000_0000
  {
    assert Pow256(5) == 0x100_0000_0000 && Pow256(6) == 0x1_0000_0000_0000;
    assert Pow256(7) == 0x100_0000_0000_0000;
  }

  function Zeros(n: nat): (r: seq<byte>)
    ensures |r| == n && forall i :: 0 <= i < n ==> r[i] == 0
  {
    seq(n, _ => 0)
  }

  /** ASCII text as bytes (what Buffer.from and Buffer.write produce for ASCII strings). */
  function Ascii(s: string): (r: seq<byte>)
    requires forall i :: 0 <= i < |s| ==> s[i] as int < 128
    ensures |r| == |s| && forall i :: 0 <= i < |s| ==> r[i] == s[i] as int
  {
    seq(|s|, i requires 0 <= i < |s| => s[i] as int as byte)
  }

  /** `v` in `n` bytes, least significant byte first; bits above 8n are dropped. */
  function EncodeLE(v: nat, n: nat): (r: seq<byte>)
    ensures |r| == n
  {
    if n == 0 then [] else [(v % 256) as byte] + EncodeLE(v / 256, n - 1)
  }

  /** The unsigned number whose little-endian bytes are `s`. */
  function DecodeLE(s: seq<byte>): (r: nat)
    ensures r < Pow256(|s|)
  {
    if s == [] then 0 else s[0] + 256 * DecodeLE(s[1..])
  }

  /** Decoding undoes encoding for every value that fits in the width. */
  lemma {:induction false} DecodeEncodeLE(v: nat, n: nat)
    requires v < Pow256(n)
    ensures DecodeLE(EncodeLE(v, n)) == v
  {
    if n > 0 {
      DecodeEncodeLE(v / 256, n - 1);
      assert EncodeLE(v, n)[1..] == EncodeLE(v / 256, n - 1);
    }
  }

  /** Encoding undoes decoding: every byte string is the encoding of its value. */
  lemma {:induction false} EncodeDecodeLE(s: seq<byte>)
    ensures EncodeLE(DecodeLE(s), |s|) == s
  {
    if s != [] {
      EncodeDecodeLE(s[1..]);
      var v := DecodeLE(s);
      assert v % 256 == s[0] && v / 256 == DecodeLE(s[1..]);
    }
  }

  /** `s` with the bytes from `offset` on replaced by `w`. */
  function Overwrite(s: seq<byte>, offset: nat, w: seq<byte>): (r: seq<byte>)
    requires offset + |w| <= |s|
  {
    seq(|s|, i requires 0 <= i < |s| => if offset <= i < offset + |w| then w[i - offset] else s[i])
  }

  /** Buffer.alloc(n): a fresh buffer of n zero bytes. */
  method Alloc(n: nat) returns (buf: array<byte>)
    ensures fresh(buf) && buf[..] == Zeros(n)
  {
    buf := new byte[n](_ => 0);
  }

  /**
   * TypedArray.prototype.set(src, offset): copies `src` to `offset`, or throws a
   * RangeError, writing nothing, when it would run past the end.
   */
  method Set(buf: array<byte>, src: seq<byte>, offset: nat) returns (r: Outcome)
    modifies buf
    ensures r == if offset + |src| <= buf.Length then Pass else Fail(OffsetOutOfBounds)
    ensures r.Pass? ==> buf[..] == Overwrite(old(buf[..]), offset, src)
    ensures r.Fail? ==> buf[..] == old(buf[..])
  {
    if offset + |src| > buf.Length {
      return Fail(OffsetOutOfBounds);
    }
    for i := 0 to |src|
      invariant forall j :: 0 <= j < buf.Length ==>
        buf[j] == if offset <= j < offset + i then src[j - offset] else old(buf[j])
    {
      buf[offset + i] := src[i];
    }
    assert buf[..] == Overwrite(old(buf[..]), offset, src);
    return Pass;
  }

  /**
   * Buffer.prototype.writeUIntLE(v, offset, n) and its fixed-width forms
   * writeUInt8, writeUInt16LE, writeUInt32LE: throws ERR_OUT_OF_RANGE, writing
   * nothing, unless 0 <= v < 256^n. Every call site of the encoder passes an
   * offset at which the n bytes fit.
   */
  method WriteUIntLE(buf: array<byte>, v: int, offset: nat, n: nat) returns (r: Outcome)
    requires offset + n <= buf.Length
    modifies buf
    ensures r == if 0 <= v < Pow256(n) then Pass else Fail(ValueOutOfRange)
    ensures r.Pass? ==> buf[..] == Overwrite(old(buf[..]), offset, EncodeLE(v, n))
    ensures r.Fail? ==> buf[..] == old(buf[..])
  {
    if !(0 <= v < Pow256(n)) {
      return Fail(ValueOutOfRange);
    }
    var rest := v;
    var i := 0;
    while i < n
      invariant 0 <= i <= n && 0 <= rest
      invariant EncodeLE(v, n)[i..] == EncodeLE(rest, n - i)
      invariant forall j :: 0 <= j < buf.Length ==>
        buf[j] == if offset <= j < offset + i then EncodeLE(v, n)[j - offset] else old(buf[j])
    {
      assert EncodeLE(v, n)[i] == rest % 256;
      assert EncodeLE(v, n)[i + 1..] == EncodeLE(v, n)[i..][1..];
      buf[offset + i] := (rest % 256) as byte;
      rest := rest / 256;
      i := i + 1;
    }
    assert buf[..] == Overwrite(old(buf[..]), offset, EncodeLE(v, n));
    return Pass;
  }

  /**
   * Buffer.prototype.writeBigInt64LE(v, offset): the two's complement of v in
   * 8 bytes, or ERR_OUT_OF_RANGE unless -2^63 <= v < 2^63.
   */
  method WriteBigInt64LE(buf: array<byte>, v: int, offset: nat) returns (r: Outcome)
    requires offset + 8 <= buf.Length
    modifies buf
    ensures r == if -TwoTo63 <= v < TwoTo63 then Pass else Fail(ValueOutOfRange)
    ensures r.Pass? ==> buf[..] == Overwrite(old(buf[..]), offset, EncodeLE(v % Pow256(8), 8))
    ensures r.Fail? ==> buf[..] == old(buf[..])
  {
    if !(-TwoTo63 <= v < TwoTo63) {
      return Fail(ValueOutOfRange);
    }
    r := WriteUIntLE(buf, v % Pow256(8), offset, 8);
  }

  /** The bytes of a list of buffers laid end to end (Buffer.concat). */
  function Flatten(bufs: seq<seq<byte>>): (r: seq<byte>)
  {
    if bufs == [] then [] else Flatten(bufs[..|bufs| - 1]) + bufs[|bufs| - 1]
  }

  /** The total length of a list of buffers. */
  function TotalLength(bufs: seq<seq<byte>>): nat
  {
    if bufs == [] then 0 else TotalLength(bufs[..|bufs| - 1]) + |bufs[|bufs| - 1]|
  }

  lemma {:induction false} FlattenLength(bufs: seq<seq<byte>>)
    ensures |Flatten(bufs)| == TotalLength(bufs)
  {
    if bufs != [] {
      FlattenLength(bufs[..|bufs| - 1]);
    }
  }

  /** Concatenating two lists of buffers concatenates their bytes. */
  lemma {:induction false} FlattenAppend(a: seq<seq<byte>>, b: seq<seq<byte>>)
    ensures Flatten(a + b) == Flatten(a) + Flatten(b)
    decreases |b|
  {
    if b == [] {
      assert a + b == a;
    } else {
      var c, last := b[..|b| - 1], b[|b| - 1];
      assert (a + b)[..|a + b| - 1] == a + c;
      assert (a + b)[|a + b| - 1] == last;
      assert Flatten(a + b) == Flatten(a + c) + last;
      assert Flatten(b) == Flatten(c) + last;
      FlattenAppend(a, c);
      assert Flatten(a) + Flatten(c) + last == Flatten(a) + (Flatten(c) + last);
    }
  }
}
