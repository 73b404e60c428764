/** The detection-result scan: find the first detector record that is confident
    enough and of the target class, and turn its normalised box into a pixel
    crop rectangle of the frame. */
module Detection {
  import opened Wrappers
  import opened Numeric
  import opened Layout
  import opened Image

  /** A record must have confidence strictly above this value. */
  const DetectThreshold: real := 0.90
  /** Normalised margin added on every side of a detected box. */
  const ExtendMargin: real := 0.008
  /** The single class this stage looks for. */
  const TargetClassId: int := 0

  /** The detector's class labels start at 1; the class id is the truncated raw value minus one. */
  function ClassId(r: Record): (c: int)
    ensures IsTruncation(r.rawClass, c + 1)
    ensures c == TargetClassId <==> 1.0 <= r.rawClass < 2.0
  {
    TruncIsTheTruncation(r.rawClass, Trunc(r.rawClass));
    Trunc(r.rawClass) - 1
  }

  /** The qualification rule in terms of the raw fields: the threshold is strict,
      and every raw class value in [1, 2) denotes the target class. */
  predicate Qualifies(r: Record)
    ensures Qualifies(r) <==> r.confidence > 0.90 && 1.0 <= r.rawClass < 2.0
  {
    r.confidence > DetectThreshold && ClassId(r) == TargetClassId
  }

  /** Scan order position: the tensor, then the record within that tensor. */
  datatype Position = Position(tensor: nat, index: nat)

  predicate ValidPosition(outs: seq<seq<Record>>, p: Position) {
    p.tensor < |outs| && p.index < |outs[p.tensor]|
  }

  /** No record that the scan visits before position (t, i) qualifies. */
  ghost predicate NoneQualifyBefore(outs: seq<seq<Record>>, t: int, i: int) {
    forall u, k :: 0 <= u < |outs| && 0 <= k < |outs[u]| && (u < t || (u == t && k < i)) ==> !Qualifies(outs[u][k])
  }

  /** No record anywhere qualifies. */
  ghost predicate NoneQualify(outs: seq<seq<Record>>) {
    forall u, k :: 0 <= u < |outs| && 0 <= k < |outs[u]| ==> !Qualifies(outs[u][k])
  }

  /** The index of the first qualifying record of one tensor. */
  function FirstIn(rs: seq<Record>): (r: Option<nat>)
    ensures r.None? <==> forall k :: 0 <= k < |rs| ==> !Qualifies(rs[k])
    ensures r.Some? ==> r.value < |rs| && Qualifies(rs[r.value])
    ensures r.Some? ==> forall k :: 0 <= k < r.value ==> !Qualifies(rs[k])
  {
    if |rs| == 0 then None
    else if Qualifies(rs[0]) then Some(0)
    else
      match FirstIn(rs[1..])
      case None => None
      case Some(k) => Some(k + 1)
  }

  /** The position of the first qualifying record in tensors `t` onwards. */
  function FirstFrom(outs: seq<seq<Record>>, t: nat): (r: Option<Position>)
    requires t <= |outs|
    ensures r.None? <==> forall u, k :: t <= u < |outs| && 0 <= k < |outs[u]| ==> !Qualifies(outs[u][k])
    ensures r.Some? ==> t <= r.value.tensor && ValidPosition(outs, r.value)
    ensures r.Some? ==> Qualifies(outs[r.value.tensor][r.value.index])
    ensures r.Some? ==> forall u, k ::
      (t <= u < |outs| && 0 <= k < |outs[u]| && (u < r.value.tensor || (u == r.value.tensor && k < r.value.index)))
      ==> !Qualifies(outs[u][k])
    decreases |outs| - t
  {
    if t == |outs| then None
    else
      match FirstIn(outs[t])
      case Some(i) => Some(Position(t, i))
      case None => FirstFrom(outs, t + 1)
  }

  /** The position of the first qualifying record in scan order, if any. */
  function FirstMatch(outs: seq<seq<Record>>): (r: Option<Position>)
    ensures r.None? <==> NoneQualify(outs)
    ensures r.Some? ==> ValidPosition(outs, r.value) && Qualifies(outs[r.value.tensor][r.value.index])
    ensures r.Some? ==> NoneQualifyBefore(outs, r.value.tensor, r.value.index)
  {
    FirstFrom(outs, 0)
  }

  /** The widened box in pixels, each side truncated and clamped on one side only. */
  datatype PixelBox = PixelBox(left: int, top: int, right: int, bottom: int)

  /** `n` is `max(int(x), 0)`: zero when `x` is below 1, and otherwise the
      truncation of `x`. */
  ghost predicate ClampedBelow(x: real, n: int) {
    && (x < 1.0 ==> n == 0)
    && (1.0 <= x ==> IsTruncation(x, n))
  }

  /** `n` is `min(int(x), hi)`: the truncation of `x` while that is at most `hi`,
      and `hi` once `x` reaches it. The `hi < 0` cases arise for an empty frame. */
  ghost predicate ClampedAbove(x: real, hi: int, n: int) {
    && ((0 <= hi && x < (hi + 1) as real) || (hi < 0 && x <= hi as real) ==> IsTruncation(x, n))
    && ((0 <= hi && hi as real <= x) || (hi < 0 && hi as real < x) ==> n == hi)
  }

  /** Each characterisation determines the clamped value. */
  lemma ClampedBelowUnique(x: real, n: int, m: int)
    requires ClampedBelow(x, n) && ClampedBelow(x, m)
    ensures n == m
  {
    TruncIsTheTruncation(x, n);
    TruncIsTheTruncation(x, m);
  }

  lemma ClampedAboveUnique(x: real, hi: int, n: int, m: int)
    requires ClampedAbove(x, hi, n) && ClampedAbove(x, hi, m)
    ensures n == m
  {
    TruncIsTheTruncation(x, n);
    TruncIsTheTruncation(x, m);
  }

  /** `int(x)` clamped from below at zero, as for the left and top sides. */
  function ClampLow(x: real): (n: int)
    ensures 0 <= n
    ensures ClampedBelow(x, n)
  {
    TruncIsTheTruncation(x, Trunc(x));
    Max(Trunc(x), 0)
  }

  /** `int(x)` clamped from above at `hi`, as for the right and bottom sides. */
  function ClampHigh(x: real, hi: int): (n: int)
    ensures n <= hi
    ensures ClampedAbove(x, hi, n)
  {
    TruncIsTheTruncation(x, Trunc(x));
    Min(Trunc(x), hi)
  }

  /** A normalised coordinate widened by `margin` (negative for left and top)
      and scaled to a frame dimension. */
  function Scaled(coord: real, margin: real, dim: nat): real {
    (coord + margin) * dim as real
  }

  /** The widened, scaled, truncated and one-sided clamped pixel box of a record. */
  function BoxOf(frame: Frame, r: Record): (b: PixelBox)
    ensures 0 <= b.left && 0 <= b.top
    ensures b.right <= frame.width - 1 && b.bottom <= frame.height - 1
    ensures ClampedBelow(Scaled(r.left, -ExtendMargin, frame.width), b.left)
    ensures ClampedBelow(Scaled(r.top, -ExtendMargin, frame.height), b.top)
    ensures ClampedAbove(Scaled(r.right, ExtendMargin, frame.width), frame.width - 1, b.right)
    ensures ClampedAbove(Scaled(r.bottom, ExtendMargin, frame.height), frame.height - 1, b.bottom)
  {
    PixelBox(
      ClampLow(Scaled(r.left, -ExtendMargin, frame.width)),
      ClampLow(Scaled(r.top, -ExtendMargin, frame.height)),
      ClampHigh(Scaled(r.right, ExtendMargin, frame.width), frame.width - 1),
      ClampHigh(Scaled(r.bottom, ExtendMargin, frame.height), frame.height - 1))
  }

  /** The crop rectangle: anchored at the clamped top-left corner, sized by the
      absolute differences of the clamped bounds. For an ordered box it ends at
      the right and bottom bounds; for an inverted one it is mirrored past the
      left or top bound instead of spanning the box. */
  function CropRect(frame: Frame, r: Record): (rect: Rect)
    ensures 0 <= rect.x && 0 <= rect.y && 0 <= rect.width && 0 <= rect.height
    ensures var b := BoxOf(frame, r);
            && rect.x == b.left && rect.y == b.top
            && (b.left <= b.right ==> rect.x + rect.width == b.right)
            && (b.right < b.left ==> rect.x + rect.width == 2 * b.left - b.right)
            && (b.top <= b.bottom ==> rect.y + rect.height == b.bottom)
            && (b.bottom < b.top ==> rect.y + rect.height == 2 * b.top - b.bottom)
  {
    var b := BoxOf(frame, r);
    Rect(b.left, b.top, Abs(b.right - b.left), Abs(b.bottom - b.top))
  }

  /** The crop rectangle of the first qualifying record, or None when nothing qualifies. */
  function FindSign(frame: Frame, outs: seq<seq<Record>>): (r: Option<Rect>)
    ensures r.None? <==> NoneQualify(outs)
    ensures |outs| == 0 ==> r.None?
  {
    match FirstMatch(outs)
    case None => None
    case Some(p) => Some(CropRect(frame, outs[p.tensor][p.index]))
  }

  /** First match wins: the qualifying record that the scan reaches first decides
      the result, whatever the records after it hold. */
  lemma FirstMatchWins(frame: Frame, outs: seq<seq<Record>>, t: nat, i: nat)
    requires ValidPosition(outs, Position(t, i)) && Qualifies(outs[t][i])
    requires NoneQualifyBefore(outs, t, i)
    ensures FindSign(frame, outs) == Some(CropRect(frame, outs[t][i]))
  {
  }

  /** Once a record is found, tensors appended after the scanned ones never change the result. */
  lemma FoundIgnoresLaterTensors(frame: Frame, outs: seq<seq<Record>>, later: seq<seq<Record>>)
    requires FindSign(frame, outs).Some?
    ensures FindSign(frame, outs + later) == FindSign(frame, outs)
  {
    var p := FirstMatch(outs).value;
    var all := outs + later;
    assert all[p.tensor] == outs[p.tensor];
    forall u, k | 0 <= u < |all| && 0 <= k < |all[u]| && (u < p.tensor || (u == p.tensor && k < p.index))
      ensures !Qualifies(all[u][k])
    {
      assert all[u] == outs[u];
    }
    FirstMatchWins(frame, all, p.tensor, p.index);
  }

  /** The whole output of the detector, decoded tensor by tensor. */
  function DecodeAll(outs: seq<seq<real>>): (recs: seq<seq<Record>>)
    requires forall t :: 0 <= t < |outs| ==> WellFormed(outs[t])
    ensures |recs| == |outs|
    ensures forall t :: 0 <= t < |outs| ==> recs[t] == Decode(outs[t])
  {
    seq(|outs|, t requires 0 <= t < |outs| => Decode(outs[t]))
  }

  /** The scan as the C++ loop performs it: tensor by tensor, and within a tensor
      over the flat buffer at stride seven, returning on the first qualifying record. */
  method ScanOutputs(frame: Frame, outs: seq<seq<real>>) returns (r: Option<Rect>)
    requires forall t :: 0 <= t < |outs| ==> WellFormed(outs[t])
    ensures r == FindSign(frame, DecodeAll(outs))
  {
    ghost var recs := DecodeAll(outs);
    var t := 0;
    while t < |outs|
      invariant 0 <= t <= |outs|
      invariant NoneQualifyBefore(recs, t, 0)
    {
      var data := outs[t];
      var i := 0;
      while i < |data|
        invariant 0 <= i <= |data| && i % Stride == 0
        invariant NoneQualifyBefore(recs, t, i / Stride)
      {
        var confidence := data[i + 2];
        var classId := Trunc(data[i + 1]) - 1;
        if confidence > DetectThreshold && classId == TargetClassId {
          var rec := RecordAt(data, i);
          assert rec == recs[t][i / Stride];
          FirstMatchWins(frame, recs, t, i / Stride);
          return Some(CropRect(frame, rec));
        }
        assert !Qualifies(recs[t][i / Stride]);
        i := i + Stride;
      }
      t := t + 1;
    }
    return None;
  }
}

/** Consequences of the scan and the box arithmetic, stated over the model above. */
module DetectionFacts {
  import opened Wrappers
  import opened Numeric
  import opened Layout
  import opened Image
  import opened Detection

  lemma MulSign(x: real, y: real)
    requires 0.0 < x && 0.0 < y
    ensures 0.0 < x * y
  {
  }

  /** The scaled, widened coordinates of a normalised interval [lo, hi]:
      the low end stays below `dim`, the high end stays non-negative, and
      the two stay ordered. */
  lemma ScaledBounds(lo: real, hi: real, dim: nat)
    requires dim > 0 && 0.0 <= lo <= hi <= 1.0
    ensures Scaled(lo, -ExtendMargin, dim) < dim as real
    ensures 0.0 <= Scaled(hi, ExtendMargin, dim)
    ensures Scaled(lo, -ExtendMargin, dim) <= Scaled(hi, ExtendMargin, dim)
  {
    var d := dim as real;
    var x := 1.0 - lo + ExtendMargin;
    MulSign(x, d);
    assert Scaled(lo, -ExtendMargin, dim) == d - x * d;
    MulSign(hi + ExtendMargin, d);
    assert Scaled(hi, ExtendMargin, dim) - Scaled(lo, -ExtendMargin, dim) == (hi - lo + 2.0 * ExtendMargin) * d;
    MulSign(hi - lo + 2.0 * ExtendMargin, d);
  }

  /** Along one axis, a normalised, well-ordered box widens and truncates to
      pixel bounds that are ordered and inside [0, dim - 1]. */
  lemma AxisInside(lo: real, hi: real, dim: nat)
    requires dim > 0 && 0.0 <= lo <= hi <= 1.0
    ensures 0 <= ClampLow(Scaled(lo, -ExtendMargin, dim))
    ensures ClampLow(Scaled(lo, -ExtendMargin, dim)) <= ClampHigh(Scaled(hi, ExtendMargin, dim), dim - 1)
    ensures ClampHigh(Scaled(hi, ExtendMargin, dim), dim - 1) <= dim - 1
  {
    var a := Scaled(lo, -ExtendMargin, dim);
    var b := Scaled(hi, ExtendMargin, dim);
    ScaledBounds(lo, hi, dim);
    TruncMonotone(a, b);
    assert Trunc(a) <= dim - 1;
    assert 0 <= Trunc(b);
  }

  /** For a normalised box with left <= right and top <= bottom on a non-empty
      frame, the clamped bounds are ordered and the crop lies inside the frame. */
  lemma CropInsideFrame(frame: Frame, r: Record)
    requires !IsEmpty(frame)
    requires 0.0 <= r.left <= r.right <= 1.0 && 0.0 <= r.top <= r.bottom <= 1.0
    ensures BoxOf(frame, r).left <= BoxOf(frame, r).right <= frame.width - 1
    ensures BoxOf(frame, r).top <= BoxOf(frame, r).bottom <= frame.height - 1
    ensures InsideFrame(CropRect(frame, r), frame)
  {
    AxisInside(r.left, r.right, frame.width);
    AxisInside(r.top, r.bottom, frame.height);
  }

  /** The clamps are one-sided. The box (1.5, 1.5, -0.5, -0.5), whose left and
      top lie past the far edge and whose right and bottom lie before the near
      edge, yields bounds outside the frame and a crop that leaves it. The box
      (-0.5, -0.5, 1.5, 1.5) is out of range only on the clamped sides and is
      pulled back to the whole frame. The normalised but inverted box
      (0.9, 0.9, 0.1, 0.1) also gives a crop that leaves the frame. */
  lemma ClampIsOneSided()
    ensures var frame := Frame(0, 100, 100);
            var r := Record(0.0, 1.0, 0.95, 1.5, 1.5, -0.5, -0.5);
            && BoxOf(frame, r) == PixelBox(149, 149, -49, -49)
            && !InsideFrame(CropRect(frame, r), frame)
    ensures var frame := Frame(0, 100, 100);
            var wide := Record(0.0, 1.0, 0.95, -0.5, -0.5, 1.5, 1.5);
            && CropRect(frame, wide) == Rect(0, 0, 99, 99)
            && InsideFrame(CropRect(frame, wide), frame)
    ensures var frame := Frame(0, 100, 100);
            var inverted := Record(0.0, 1.0, 0.95, 0.9, 0.9, 0.1, 0.1);
            && CropRect(frame, inverted) == Rect(89, 89, 79, 79)
            && !InsideFrame(CropRect(frame, inverted), frame)
  {
    assert Scaled(0.9, -ExtendMargin, 100) == 89.2;
    assert Scaled(0.1, ExtendMargin, 100) == 10.8;
    TruncIsTheTruncation(89.2, 89);
    TruncIsTheTruncation(10.8, 10);
    assert Scaled(-0.5, -ExtendMargin, 100) == -50.8;
    assert Scaled(1.5, ExtendMargin, 100) == 150.8;
    var frame := Frame(0, 100, 100);
    var r := Record(0.0, 1.0, 0.95, 1.5, 1.5, -0.5, -0.5);
    assert Scaled(r.left, -ExtendMargin, 100) == 149.2;
    assert Scaled(r.right, ExtendMargin, 100) == -49.2;
    TruncIsTheTruncation(149.2, 149);
    TruncIsTheTruncation(-49.2, -49);
  }

  /** Coordinates are truncated, not rounded: on a 100 x 100 frame the box
      (0.2, 0.2, 0.4, 0.4) widens to (19.2, 19.2, 40.8, 40.8) and becomes
      (19, 19, 40, 40), so the crop is 21 pixels square. */
  lemma TruncationNotRounding()
    ensures var frame := Frame(0, 100, 100);
            var r := Record(0.0, 1.0, 0.95, 0.2, 0.2, 0.4, 0.4);
            && BoxOf(frame, r) == PixelBox(19, 19, 40, 40)
            && FindSign(frame, [[r]]) == Some(Rect(19, 19, 21, 21))
  {
    var frame := Frame(0, 100, 100);
    var r := Record(0.0, 1.0, 0.95, 0.2, 0.2, 0.4, 0.4);
    assert Scaled(r.left, -ExtendMargin, 100) == 19.2;
    assert Scaled(r.right, ExtendMargin, 100) == 40.8;
    TruncIsTheTruncation(19.2, 19);
    TruncIsTheTruncation(40.8, 40);
    FirstMatchWins(frame, [[r]], 0, 0);
  }

  /** First, not best: when two records qualify, the earlier one is used even
      though the later one has the higher confidence. */
  lemma FirstNotBest()
    ensures var frame := Frame(0, 100, 100);
            var first := Record(0.0, 1.0, 0.91, 0.2, 0.2, 0.4, 0.4);
            var best := Record(0.0, 1.0, 0.99, 0.5, 0.5, 0.7, 0.7);
            && Qualifies(first) && Qualifies(best)
            && FindSign(frame, [[first, best]]) == Some(CropRect(frame, first))
            && CropRect(frame, first) != CropRect(frame, best)
  {
    var frame := Frame(0, 100, 100);
    var first := Record(0.0, 1.0, 0.91, 0.2, 0.2, 0.4, 0.4);
    var best := Record(0.0, 1.0, 0.99, 0.5, 0.5, 0.7, 0.7);
    FirstMatchWins(frame, [[first, best]], 0, 0);
    assert Scaled(first.left, -ExtendMargin, 100) == 19.2;
    assert Scaled(best.left, -ExtendMargin, 100) == 49.2;
    TruncIsTheTruncation(19.2, 19);
    TruncIsTheTruncation(49.2, 49);
  }

  /** A box on the bottom-right corner gives an empty crop, and the scan still
      reports it. */
  lemma EmptyCornerCrop()
    ensures var corner := Record(0.0, 1.0, 0.95, 1.0, 1.0, 1.0, 1.0);
            CropRect(Frame(0, 100, 100), corner) == Rect(99, 99, 0, 0)
            && FindSign(Frame(0, 100, 100), [[corner]]) == Some(Rect(99, 99, 0, 0))
  {
    var corner := Record(0.0, 1.0, 0.95, 1.0, 1.0, 1.0, 1.0);
    assert Scaled(1.0, -ExtendMargin, 100) == 99.2;
    assert Scaled(1.0, ExtendMargin, 100) == 100.8;
    TruncIsTheTruncation(99.2, 99);
    FirstMatchWins(Frame(0, 100, 100), [[corner]], 0, 0);
  }

  /** On a frame one pixel wide, every normalised, well-ordered box gives a crop
      of width zero. */
  lemma OnePixelWideCrop(r: Record)
    requires 0.0 <= r.left <= r.right <= 1.0 && 0.0 <= r.top <= r.bottom <= 1.0
    ensures CropRect(Frame(0, 1, 100), r).width == 0
  {
    AxisInside(r.left, r.right, 1);
  }

  /** Exactly when the crop stays inside the frame: the clamped bounds are never
      below zero on the left and top, nor past the far edge on the right and
      bottom, so the crop leaves the frame exactly when a pair of sides is
      inverted and the rectangle, mirrored past its left or top bound, runs
      past the far edge. */
  lemma InsideFrameIff(frame: Frame, r: Record)
    ensures var b := BoxOf(frame, r);
            InsideFrame(CropRect(frame, r), frame)
            <==> (b.right < b.left ==> 2 * b.left - b.right <= frame.width)
                 && (b.bottom < b.top ==> 2 * b.top - b.bottom <= frame.height)
  {
  }

  /** The threshold is strict and the class must match: a record at exactly 0.90,
      one at 0.89, and one of another class are all passed over. */
  lemma RejectedRecords()
    ensures !Qualifies(Record(0.0, 1.0, 0.90, 0.2, 0.2, 0.4, 0.4))
    ensures !Qualifies(Record(0.0, 1.0, 0.89, 0.2, 0.2, 0.4, 0.4))
    ensures !Qualifies(Record(0.0, 2.0, 0.95, 0.2, 0.2, 0.4, 0.4))
    ensures Qualifies(Record(0.0, 1.99, 0.95, 0.2, 0.2, 0.4, 0.4))
  {
  }
}
