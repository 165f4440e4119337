/** How the uploader's writer cuts a byte stream into segments, as a function of the writes alone
    (swift_large_object.go, Write and flush). */
module Segmenter {
  import opened Common

  const MIN_PART_SIZE: nat := 5 * 1024 * 1024
  const MAX_PART_SIZE: nat := 5 * 1024 * 1024 * 1024
  const PARTS_PER_DOUBLING: nat := 1000

  /** A segment, with the length of the write that filled it; `cause` is 0 for the one Close flushes. */
  datatype Segment = Segment(data: seq<byte>, cause: nat)

  /** The writer's threshold, the bytes still in its buffer, and the segments handed to the workers. */
  datatype Cutter = Cutter(bufsz: nat, pending: seq<byte>, parts: seq<Segment>)

  function StartSize(partSize: int): nat {
    Max(MIN_PART_SIZE, partSize)
  }

  function Start(partSize: int): Cutter {
    Cutter(StartSize(partSize), [], [])
  }

  /** The threshold after handing over part number `part`. */
  function Grow(bufsz: nat, part: nat): nat {
    if part % PARTS_PER_DOUBLING == 0 then Min(bufsz * 2, MAX_PART_SIZE) else bufsz
  }

  function Cut(c: Cutter, cause: nat): Cutter {
    Cutter(Grow(c.bufsz, |c.parts| + 1), [], c.parts + [Segment(c.pending, cause)])
  }

  function Accept(c: Cutter, b: seq<byte>): Cutter {
    var filled := c.(pending := c.pending + b);
    if |filled.pending| >= c.bufsz then Cut(filled, |b|) else filled
  }

  function Finish(c: Cutter): Cutter {
    if |c.pending| > 0 then Cut(c, 0) else c
  }

  function AcceptAll(c: Cutter, writes: seq<seq<byte>>): Cutter {
    if writes == [] then c else Accept(AcceptAll(c, writes[..|writes| - 1]), writes[|writes| - 1])
  }

  lemma AcceptAllSnoc(c: Cutter, writes: seq<seq<byte>>, b: seq<byte>)
    ensures AcceptAll(c, writes + [b]) == Accept(AcceptAll(c, writes), b)
  {
    assert (writes + [b])[..|writes|] == writes;
  }

  function Datas(parts: seq<Segment>): seq<seq<byte>> {
    seq(|parts|, i requires 0 <= i < |parts| => parts[i].data)
  }

  function Contents(c: Cutter): seq<byte> {
    Flatten(Datas(c.parts)) + c.pending
  }

  // ----- conservation

  lemma CutKeepsContents(c: Cutter, cause: nat)
    ensures Contents(Cut(c, cause)) == Contents(c)
  {
    assert Datas(Cut(c, cause).parts) == Datas(c.parts) + [c.pending];
    FlattenSnoc(Datas(c.parts), c.pending);
  }

  /** Nothing is lost, duplicated or reordered: segments and pending bytes together are the writes. */
  lemma {:induction false} AcceptAllConserves(partSize: int, writes: seq<seq<byte>>)
    ensures Contents(AcceptAll(Start(partSize), writes)) == Flatten(writes)
    ensures Contents(Finish(AcceptAll(Start(partSize), writes))) == Flatten(writes)
  {
    var c := AcceptAll(Start(partSize), writes);
    if writes == [] {
    } else {
      var before, b := writes[..|writes| - 1], writes[|writes| - 1];
      AcceptAllConserves(partSize, before);
      var c0 := AcceptAll(Start(partSize), before);
      var filled := c0.(pending := c0.pending + b);
      assert Contents(filled) == Contents(c0) + b;
      CutKeepsContents(filled, |b|);
    }
    CutKeepsContents(c, 0);
  }

  // ----- thresholds

  function Pow2(n: nat): nat {
    if n == 0 then 1 else 2 * Pow2(n - 1)
  }

  /** The threshold in force while part number k (counted from 1) is filled. */
  function Threshold(b0: nat, k: nat): nat
    requires k >= 1
  {
    var j := (k - 1) / PARTS_PER_DOUBLING;
    if j == 0 then b0 else Min(b0 * Pow2(j), MAX_PART_SIZE)
  }

  lemma ThresholdGrows(b0: nat, k: nat)
    requires k >= 1
    ensures Grow(Threshold(b0, k), k) == Threshold(b0, k + 1)
  {
    var j := (k - 1) / PARTS_PER_DOUBLING;
    if k % PARTS_PER_DOUBLING == 0 {
      assert k / PARTS_PER_DOUBLING == j + 1;
      assert Pow2(j + 1) == 2 * Pow2(j);
      assert b0 * Pow2(j + 1) == 2 * (b0 * Pow2(j));
    } else {
      assert k / PARTS_PER_DOUBLING == j;
    }
  }

  ghost predicate WellCut(b0: nat, c: Cutter) {
    && c.bufsz == Threshold(b0, |c.parts| + 1)
    && (forall k :: 0 <= k < |c.parts| ==> FullSegment(b0, k, c.parts[k]))
    && |c.pending| < c.bufsz
  }

  /** Segment k + 1 reached its threshold, and had not reached it before its last write. */
  ghost predicate FullSegment(b0: nat, k: nat, seg: Segment) {
    Threshold(b0, k + 1) <= |seg.data| < Threshold(b0, k + 1) + seg.cause
  }

  ghost predicate LastSegment(b0: nat, k: nat, seg: Segment) {
    seg.cause == 0 && 0 < |seg.data| < Threshold(b0, k + 1)
  }

  lemma ThresholdPositive(b0: nat, k: nat)
    requires k >= 1 && b0 >= 1
    ensures Threshold(b0, k) >= 1
  {
    var j := (k - 1) / PARTS_PER_DOUBLING;
    Pow2Positive(j);
    assert b0 * Pow2(j) >= b0;
  }

  lemma Pow2Positive(j: nat)
    ensures Pow2(j) >= 1
  {
  }

  lemma {:induction false} AcceptAllWellCut(partSize: int, writes: seq<seq<byte>>)
    ensures WellCut(StartSize(partSize), AcceptAll(Start(partSize), writes))
  {
    var b0 := StartSize(partSize);
    if writes == [] {
    } else {
      AcceptAllWellCut(partSize, writes[..|writes| - 1]);
      var c := AcceptAll(Start(partSize), writes[..|writes| - 1]);
      var n := |c.parts| + 1;
      ThresholdGrows(b0, n);
      ThresholdPositive(b0, n + 1);
    }
  }

  /** The size rule for every finished stream: all segments but a last one flushed by Close are full. */
  lemma FinishedSegmentSizes(partSize: int, writes: seq<seq<byte>>)
    ensures var b0 := StartSize(partSize);
            var parts := Finish(AcceptAll(Start(partSize), writes)).parts;
            forall k :: 0 <= k < |parts| ==>
              FullSegment(b0, k, parts[k]) || (k == |parts| - 1 && LastSegment(b0, k, parts[k]))
  {
    AcceptAllWellCut(partSize, writes);
  }

  ghost predicate EndsWith(data: seq<byte>, b: seq<byte>) {
    |b| <= |data| && data[|data| - |b|..] == b
  }

  ghost predicate Caused(parts: seq<Segment>, writes: seq<seq<byte>>) {
    forall k :: 0 <= k < |parts| && parts[k].cause > 0 ==>
      exists i :: 0 <= i < |writes| && |writes[i]| == parts[k].cause && EndsWith(parts[k].data, writes[i])
  }

  /** The write that filled a segment is its end. */
  lemma {:induction false} AcceptAllCaused(partSize: int, writes: seq<seq<byte>>)
    ensures Caused(AcceptAll(Start(partSize), writes).parts, writes)
    ensures Caused(Finish(AcceptAll(Start(partSize), writes)).parts, writes)
  {
    if writes != [] {
      var n := |writes| - 1;
      AcceptAllCaused(partSize, writes[..n]);
      var before := AcceptAll(Start(partSize), writes[..n]);
      forall k | 0 <= k < |before.parts| && before.parts[k].cause > 0
        ensures exists i :: 0 <= i < |writes| && |writes[i]| == before.parts[k].cause
                  && EndsWith(before.parts[k].data, writes[i])
      {
        var part := before.parts[k];
        var i :| 0 <= i < n && |writes[..n][i]| == part.cause && EndsWith(part.data, writes[..n][i]);
        assert writes[i] == writes[..n][i];
      }
      assert EndsWith(before.pending + writes[n], writes[n]);
    }
  }

  /** The same in bytes: the size starts at the larger of 5 MiB and the part size and doubles after
      every thousand parts, up to 5 GiB; a part is full with the write that is its end. */
  lemma SegmentSizesInBytes(partSize: int, writes: seq<seq<byte>>, k: nat)
    requires k < |Finish(AcceptAll(Start(partSize), writes)).parts|
    ensures var parts := Finish(AcceptAll(Start(partSize), writes)).parts;
            var b0 := if partSize > 5242880 then partSize else 5242880;
            var size := if k < 1000 then b0 else Min(b0 * Pow2(k / 1000), 5368709120);
            var data := parts[k].data;
            || (exists i :: 0 <= i < |writes| && EndsWith(data, writes[i]) && size <= |data| < size + |writes[i]|)
            || (k == |parts| - 1 && 0 < |data| < size)
  {
    FinishedSegmentSizes(partSize, writes);
    AcceptAllCaused(partSize, writes);
    assert k < 1000 <==> k / 1000 == 0;
    ThresholdPositive(StartSize(partSize), k + 1);
  }

  // ----- the 10000-part limit

  /** The least number of bytes that n full segments can hold. */
  function LeastBytes(b0: nat, n: nat): nat {
    if n == 0 then 0 else LeastBytes(b0, n - 1) + Threshold(b0, n)
  }

  lemma {:induction false} LeastBytesBlock(b0: nat, j: nat, i: nat)
    requires 1 <= i <= PARTS_PER_DOUBLING
    ensures LeastBytes(b0, j * PARTS_PER_DOUBLING + i)
         == LeastBytes(b0, j * PARTS_PER_DOUBLING) + i * Threshold(b0, j * PARTS_PER_DOUBLING + 1)
    decreases i
  {
    var t := Threshold(b0, j * PARTS_PER_DOUBLING + 1);
    assert (j * PARTS_PER_DOUBLING) / PARTS_PER_DOUBLING == j;
    assert (j * PARTS_PER_DOUBLING + i - 1) / PARTS_PER_DOUBLING == j;
    assert Threshold(b0, j * PARTS_PER_DOUBLING + i) == t;
    if i > 1 {
      LeastBytesBlock(b0, j, i - 1);
    }
  }

  lemma LeastBytesOfMinimum()
    ensures LeastBytes(MIN_PART_SIZE, 10000) > 5_000_000_000_000
  {
    var b := MIN_PART_SIZE;
    assert Pow2(1) == 2 && Pow2(2) == 4 && Pow2(3) == 8;
    assert Pow2(4) == 16 && Pow2(5) == 32 && Pow2(6) == 64;
    assert Pow2(7) == 128 && Pow2(8) == 256 && Pow2(9) == 512;
    LeastBytesBlock(b, 0, 1000);
    LeastBytesBlock(b, 1, 1000);
    LeastBytesBlock(b, 2, 1000);
    LeastBytesBlock(b, 3, 1000);
    LeastBytesBlock(b, 4, 1000);
    LeastBytesBlock(b, 5, 1000);
    LeastBytesBlock(b, 6, 1000);
    LeastBytesBlock(b, 7, 1000);
    LeastBytesBlock(b, 8, 1000);
    LeastBytesBlock(b, 9, 1000);
  }

  lemma ThresholdMonotone(b0: nat, b1: nat, k: nat)
    requires b0 <= b1 && b0 <= MAX_PART_SIZE && k >= 1
    ensures Threshold(b0, k) <= Threshold(b1, k)
  {
    var j := (k - 1) / PARTS_PER_DOUBLING;
    ScaleMonotone(b0, b1, Pow2(j));
  }

  lemma ScaleMonotone(x: nat, y: nat, f: nat)
    requires x <= y
    ensures x * f <= y * f
  {
  }

  lemma {:induction false} LeastBytesMonotone(b0: nat, b1: nat, n: nat, m: nat)
    requires b0 <= b1 && b0 <= MAX_PART_SIZE && n <= m
    ensures LeastBytes(b0, n) <= LeastBytes(b1, m)
  {
    if n < m {
      LeastBytesMonotone(b0, b1, n, m - 1);
    } else if n > 0 {
      LeastBytesMonotone(b0, b1, n - 1, n - 1);
      ThresholdMonotone(b0, b1, n);
    }
  }

  lemma {:induction false} FullSegmentsHoldLeastBytes(b0: nat, parts: seq<Segment>)
    requires forall k :: 0 <= k < |parts| ==> FullSegment(b0, k, parts[k])
    ensures |Flatten(Datas(parts))| >= LeastBytes(b0, |parts|)
  {
    if parts != [] {
      var n := |parts| - 1;
      FullSegmentsHoldLeastBytes(b0, parts[..n]);
      assert Datas(parts)[..n] == Datas(parts[..n]);
      assert FullSegment(b0, n, parts[n]);
    }
  }

  /** Every stream of at most 5 * 10^12 bytes, however it is written, needs at most 10000 segments. */
  lemma PartCountBound(partSize: int, writes: seq<seq<byte>>)
    requires |Flatten(writes)| <= 5_000_000_000_000
    ensures |Finish(AcceptAll(Start(partSize), writes)).parts| <= 10000
  {
    var b0 := StartSize(partSize);
    var c := AcceptAll(Start(partSize), writes);
    AcceptAllWellCut(partSize, writes);
    AcceptAllConserves(partSize, writes);
    FullSegmentsHoldLeastBytes(b0, c.parts);
    LeastBytesOfMinimum();
    if |c.parts| >= 10000 {
      LeastBytesMonotone(MIN_PART_SIZE, b0, 10000, |c.parts|);
    }
  }
}
