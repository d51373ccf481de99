/**
 * Variable records (variable.ts): a two-character identifier and a payload,
 * serialised as [length: u16 little-endian][identifier][payload] with the
 * length held in a Uint16Clamped cell.
 */
module Variables {
  import opened Outcomes
  import opened Buffers
  import opened Uint

  /**
   * The record toBuffer produces, or the RangeError its payload copy raises
   * when the clamped length leaves the payload no room.
   */
  function VariableRecord(identifier: seq<byte>, payload: seq<byte>): Result<seq<byte>>
    requires |identifier| == 2
  {
    var length := Normalize(MaxInt(16), true, (4 + |payload|) as real);
    if 4 + |payload| > length then Err(OffsetOutOfBounds)
    else Ok(EncodeLE(length, 2) + identifier + payload)
  }

  /**
   * A payload of at most 65531 bytes gives a record of 4 + |payload| bytes
   * holding that length little-endian in bytes 0..1, the identifier in bytes
   * 2..3 and the payload from byte 4; a longer one clamps the length to
   * 65535 and the payload copy overflows.
   */
  lemma VariableRecordLayout(identifier: seq<byte>, payload: seq<byte>)
    requires |identifier| == 2
    ensures VariableRecord(identifier, payload).Ok? <==> |payload| <= 65531
    ensures VariableRecord(identifier, payload).Err? ==>
      VariableRecord(identifier, payload).error == OffsetOutOfBounds
    ensures VariableRecord(identifier, payload).Ok? ==>
      var b := VariableRecord(identifier, payload).value;
      |b| == 4 + |payload| && DecodeLE(b[..2]) == 4 + |payload| &&
      b[2..4] == identifier && b[4..] == payload
  {
    Capacities();
    if |payload| <= 65531 {
      var b := VariableRecord(identifier, payload).value;
      DecodeEncodeLE(4 + |payload|, 2);
      assert b[..2] == EncodeLE(4 + |payload|, 2);
    }
  }

  /** An empty payload, as in MediaFile and SequenceProducer, gives the 4-byte record [4, 0, id0, id1]. */
  lemma EmptyPayloadRecord(identifier: seq<byte>)
    requires |identifier| == 2
    ensures VariableRecord(identifier, []) == Ok([4, 0] + identifier)
  {
    Capacities();
    assert (4.0).Floor == 4;
    assert Normalize(MaxInt(16), true, 4.0) == 4;
    assert EncodeLE(4, 2) == [4, 0];
    var empty: seq<byte> := [];
    assert EncodeLE(4, 2) + identifier + empty == [4, 0] + identifier;
  }

  /** The record length toBuffer allocates: a Uint16Clamped of 4 + the payload length. */
  method RecordLength(payloadLength: nat) returns (n: nat)
    ensures n == Normalize(MaxInt(16), true, (4 + payloadLength) as real)
    ensures 4 <= n < Pow256(2)
  {
    Capacities();
    var cell := new UintCell(16, true);
    cell := cell.From((4 + payloadLength) as real);
    n := cell.Int();
  }

  /** Writing the length, the identifier and the payload into a zero buffer of the record's size lays them end to end. */
  lemma RecordWrites(length: seq<byte>, identifier: seq<byte>, payload: seq<byte>)
    requires |length| == 2 && |identifier| == 2
    ensures var n := 4 + |payload|;
      Overwrite(Overwrite(Overwrite(Zeros(n), 0, length), 2, identifier), 4, payload) ==
      length + identifier + payload
  {
    var n := 4 + |payload|;
    var t := Overwrite(Overwrite(Overwrite(Zeros(n), 0, length), 2, identifier), 4, payload);
    var r := length + identifier + payload;
    forall i | 0 <= i < n ensures t[i] == r[i] {
      if i < 2 {
        assert r[i] == length[i];
      } else if i < 4 {
        assert r[i] == identifier[i - 2];
      }
    }
  }

  class Variable {
    const identifier: seq<byte>
    const value: seq<byte>

    /** What the constructor guarantees: the identifier has length 2. */
    ghost predicate Valid()
    {
      |identifier| == 2
    }

    constructor (identifier: seq<byte>, value: seq<byte>)
      requires |identifier| == 2
      ensures Valid() && this.identifier == identifier && this.value == value
    {
      this.identifier := identifier;
      this.value := value;
    }

    /** `new Variable(identifier, value)`: throws a RangeError unless the identifier has length 2. */
    static method Create(identifier: seq<byte>, value: seq<byte>) returns (r: Result<Variable>)
      ensures r.Ok? <==> |identifier| == 2
      ensures r.Err? ==> r.error == InvalidIdentifier
      ensures r.Ok? ==> fresh(r.value) && r.value.Valid() &&
                        r.value.identifier == identifier && r.value.value == value
    {
      if |identifier| != 2 {
        return Err(InvalidIdentifier);
      }
      var v := new Variable(identifier, value);
      return Ok(v);
    }

    /**
     * toBuffer(): allocates the clamped length, writes it at 0 and copies the
     * identifier to 2 and the payload to 4. It reads the variable only, so
     * every call gives the same bytes.
     */
    method ToBuffer() returns (r: Result<seq<byte>>)
      requires Valid()
      ensures r == VariableRecord(identifier, value)
    {
      var data := value;
      var length := RecordLength(|data|);
      var buf := Alloc(length);
      var w := WriteUIntLE(buf, length, 0, 2);
      ghost var s1 := Overwrite(Zeros(length), 0, EncodeLE(length, 2));
      assert buf[..] == s1;
      var s := Set(buf, identifier, 2);
      ghost var s2 := Overwrite(s1, 2, identifier);
      assert buf[..] == s2;
      s := Set(buf, data, 4);
      if s.Fail? {
        return Err(s.error);
      }
      RecordWrites(EncodeLE(length, 2), identifier, data);
      return Ok(buf[..]);
    }

    /** Variable.MediaFile: identifier "mf", empty payload (the path of the audio to play). */
    static method MediaFile() returns (v: Variable)
      ensures fresh(v) && v.Valid() && v.identifier == Ascii("mf") && v.value == []
    {
      v := new Variable(Ascii("mf"), []);
    }

    /** Variable.SequenceProducer: identifier "sp", empty payload (the program that made the sequence). */
    static method SequenceProducer() returns (v: Variable)
      ensures fresh(v) && v.Valid() && v.identifier == Ascii("sp") && v.value == []
    {
      v := new Variable(Ascii("sp"), []);
    }
  }

  /** toBuffer reads the variable only: two calls give the same bytes. */
  method RecordTwice(v: Variable) returns (first: Result<seq<byte>>, second: Result<seq<byte>>)
    requires v.Valid()
    ensures first == second && first == VariableRecord(v.identifier, v.value)
  {
    first := v.ToBuffer();
    second := v.ToBuffer();
  }

  ghost predicate AllValid(vs: seq<Variable>)
  {
    forall i :: 0 <= i < |vs| ==> vs[i].Valid()
  }

  /** The records of a list of variables in order, or the error of the first that fails (`variables.map(v => v.toBuffer())`). */
  function Records(vs: seq<Variable>): Result<seq<seq<byte>>>
    requires AllValid(vs)
  {
    if vs == [] then Ok([])
    else
      var last := vs[|vs| - 1];
      match Records(vs[..|vs| - 1])
      case Err(e) => Err(e)
      case Ok(rs) =>
        match VariableRecord(last.identifier, last.value)
        case Err(e) => Err(e)
        case Ok(b) => Ok(rs + [b])
  }

  /**
   * The records succeed exactly when every payload is at most 65531 bytes, and
   * then the i-th record is the i-th variable's.
   */
  lemma {:induction false} RecordsOk(vs: seq<Variable>)
    requires AllValid(vs)
    ensures Records(vs).Ok? <==> forall i :: 0 <= i < |vs| ==> |vs[i].value| <= 65531
    ensures Records(vs).Ok? ==> |Records(vs).value| == |vs|
    ensures Records(vs).Ok? ==> forall i :: 0 <= i < |vs| ==>
      Ok(Records(vs).value[i]) == VariableRecord(vs[i].identifier, vs[i].value)
  {
    if vs != [] {
      var n := |vs| - 1;
      var init, last := vs[..n], vs[n];
      assert forall i :: 0 <= i < n ==> init[i] == vs[i];
      RecordsOk(init);
      VariableRecordLayout(last.identifier, last.value);
      var fits := forall i :: 0 <= i < |vs| ==> |vs[i].value| <= 65531;
      if Records(init).Ok? && VariableRecord(last.identifier, last.value).Ok? {
        var rs, b := Records(init).value, VariableRecord(last.identifier, last.value).value;
        assert Records(vs).value == rs + [b];
        forall i | 0 <= i < |vs|
          ensures Ok(Records(vs).value[i]) == VariableRecord(vs[i].identifier, vs[i].value)
        {
          if i < n {
            assert (rs + [b])[i] == rs[i] && init[i] == vs[i];
            assert Ok(rs[i]) == VariableRecord(init[i].identifier, init[i].value);
          } else {
            assert (rs + [b])[i] == b && vs[i] == last;
          }
        }
        assert fits;
      } else {
        assert Records(vs).Err?;
        assert !fits;
      }
    }
  }

  /** Once a prefix of the list fails, the whole list fails with the same error. */
  lemma {:induction false} RecordsErrExtends(vs: seq<Variable>, i: nat)
    requires i <= |vs| && AllValid(vs) && Records(vs[..i]).Err?
    ensures Records(vs) == Records(vs[..i])
    decreases |vs|
  {
    if i < |vs| {
      var init := vs[..|vs| - 1];
      assert init[..i] == vs[..i];
      RecordsErrExtends(init, i);
    } else {
      assert vs[..i] == vs;
    }
  }

  /** Builds the records of a list of variables, stopping at the first that throws. */
  method ToBuffers(vs: seq<Variable>) returns (r: Result<seq<seq<byte>>>)
    requires AllValid(vs)
    ensures r == Records(vs)
  {
    var built: seq<seq<byte>> := [];
    for i := 0 to |vs|
      invariant Records(vs[..i]) == Ok(built)
    {
      var b := vs[i].ToBuffer();
      assert vs[..i + 1][..i] == vs[..i];
      if b.Err? {
        RecordsErrExtends(vs, i + 1);
        return Err(b.error);
      }
      built := built + [b.value];
    }
    assert vs[..|vs|] == vs;
    return Ok(built);
  }
}
