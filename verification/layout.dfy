/** The detector's raw output layout. Each output tensor is a flat buffer of
    floats read seven at a time:
    `[batch_id, class_id_raw, confidence, left, top, right, bottom]`,
    with the box coordinates normalised to the frame size. */
module Layout {

  /** Number of floats per detection record. */
  const Stride: nat := 7

  datatype Record = Record(
    batchId: real,
    rawClass: real,
    confidence: real,
    left: real,
    top: real,
    right: real,
    bottom: real)

  /** A tensor buffer holds only whole records. */
  predicate WellFormed(data: seq<real>) {
    |data| % Stride == 0
  }

  /** The record that starts at offset `i` of the buffer. */
  function RecordAt(data: seq<real>, i: nat): (r: Record)
    requires i + Stride <= |data|
    ensures r.rawClass == data[i + 1] && r.confidence == data[i + 2]
    ensures r.left == data[i + 3] && r.top == data[i + 4]
    ensures r.right == data[i + 5] && r.bottom == data[i + 6]
  {
    Record(data[i], data[i + 1], data[i + 2], data[i + 3], data[i + 4], data[i + 5], data[i + 6])
  }

  function Fields(r: Record): (s: seq<real>)
    ensures |s| == Stride
  {
    [r.batchId, r.rawClass, r.confidence, r.left, r.top, r.right, r.bottom]
  }

  /** The typed view of a flat buffer: record `k` is the one at offset `7 * k`. */
  function Decode(data: seq<real>): (rs: seq<Record>)
    requires WellFormed(data)
    ensures |rs| * Stride == |data|
    ensures forall k :: 0 <= k < |rs| ==> rs[k] == RecordAt(data, k * Stride)
    decreases |data|
  {
    if |data| == 0 then []
    else
      var rest := Decode(data[Stride..]);
      assert forall k :: 0 <= k < |rest| ==> data[Stride..][k * Stride..][..Stride] == data[(k + 1) * Stride..][..Stride];
      [RecordAt(data, 0)] + rest
  }

  /** The flat buffer of a sequence of records. */
  function Encode(rs: seq<Record>): (data: seq<real>)
    ensures WellFormed(data) && |data| == |rs| * Stride
  {
    if |rs| == 0 then [] else Fields(rs[0]) + Encode(rs[1..])
  }

  lemma {:induction false} DecodeEncode(rs: seq<Record>)
    ensures Decode(Encode(rs)) == rs
  {
    if |rs| > 0 {
      var data := Encode(rs);
      assert data[Stride..] == Encode(rs[1..]);
      DecodeEncode(rs[1..]);
    }
  }

  lemma {:induction false} EncodeDecode(data: seq<real>)
    requires WellFormed(data)
    ensures Encode(Decode(data)) == data
    decreases |data|
  {
    if |data| > 0 {
      var rs := Decode(data);
      EncodeDecode(data[Stride..]);
      assert rs[1..] == Decode(data[Stride..]);
      assert Fields(rs[0]) == data[..Stride];
      assert data == data[..Stride] + data[Stride..];
    }
  }
}
