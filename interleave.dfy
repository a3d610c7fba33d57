/**
 * analyzegpu.py: the two address views of `analyze_gpu_output(data, channels)`.
 * The physical view splits the buffer into `channels` lanes, element i going
 * to lane i mod C at position i div C; the de-interleave loop walks the rows
 * lane by lane and rebuilds the thread order, dropping an incomplete last row.
 */
module Interleave {
  import opened Errors
  import opened Bits

  /** Python's `data[start::step]` for a positive step: every step-th element from start on. */
  function Slice<T>(data: seq<T>, start: nat, step: nat): seq<T>
    requires step > 0
    decreases |data| - start
  {
    if start >= |data| then [] else [data[start]] + Slice(data, start + step, step)
  }

  /** Position j of the slice from start exists exactly when element start + j * step does. */
  lemma {:induction false} SliceLength<T>(data: seq<T>, start: nat, step: nat, j: nat)
    requires step > 0
    ensures j < |Slice(data, start, step)| <==> start + j * step < |data|
    decreases j
  {
    if j > 0 && start < |data| {
      SliceLength(data, start + step, step, j - 1);
      MulAddDistrib(j - 1, 1, step);
    }
  }

  /** Position j of the slice from start holds element start + j * step. */
  lemma {:induction false} SliceIndex<T>(data: seq<T>, start: nat, step: nat, j: nat)
    requires step > 0 && j < |Slice(data, start, step)|
    ensures start + j * step < |data| && Slice(data, start, step)[j] == data[start + j * step]
    decreases j
  {
    if j > 0 {
      SliceIndex(data, start + step, step, j - 1);
      MulAddDistrib(j - 1, 1, step);
    }
  }

  /** Starting k elements later is slicing the buffer with its first k elements cut off. */
  lemma {:induction false} SliceShift<T>(data: seq<T>, start: nat, step: nat, k: nat)
    requires step > 0 && k <= |data|
    ensures Slice(data, start + k, step) == Slice(data[k..], start, step)
    decreases |data| - start
  {
    var rest := data[k..];
    if start + k < |data| {
      assert rest[start] == data[start + k];
      assert Slice(data, start + k, step) == [data[start + k]] + Slice(data, start + k + step, step);
      assert Slice(rest, start, step) == [rest[start]] + Slice(rest, start + step, step);
      SliceShift(data, start + step, step, k);
    } else {
      assert start >= |rest|;
    }
  }

  /**
   * Line 6, `[data[i::channels] for i in range(channels)]`: one lane per
   * channel.  For a count of zero or less `range` is empty, so no slice is
   * taken (a zero step is never evaluated) and there are no lanes.
   */
  function Lanes<T>(data: seq<T>, channels: int): (r: seq<seq<T>>)
    ensures |r| == if channels > 0 then channels else 0
  {
    if channels <= 0 then []
    else seq(channels, l requires 0 <= l < channels => Slice(data, l, channels))
  }

  /**
   * The physical view: lane l has one element for each position j with
   * l + j * C inside the buffer, and position j holds element l + j * C.
   */
  lemma LaneContents<T>(data: seq<T>, channels: nat, l: nat)
    requires channels > 0 && l < channels
    ensures var lane := Lanes(data, channels)[l];
      && (forall j: nat :: j < |lane| <==> l + j * channels < |data|)
      && (forall j :: 0 <= j < |lane| ==> lane[j] == data[l + j * channels])
  {
    var lane := Lanes(data, channels)[l];
    assert lane == Slice(data, l, channels);
    forall j: nat ensures j < |lane| <==> l + j * channels < |data| {
      SliceLength(data, l, channels, j);
    }
    forall j | 0 <= j < |lane| ensures lane[j] == data[l + j * channels] {
      SliceIndex(data, l, channels, j);
    }
  }

  /** Element i of the buffer lies in lane i mod C, at position i div C. */
  lemma IndexLane<T>(data: seq<T>, channels: nat, i: nat)
    requires channels > 0 && i < |data|
    ensures var lane := Lanes(data, channels)[i % channels];
      i / channels < |lane| && lane[i / channels] == data[i]
  {
    var l, j := i % channels, i / channels;
    assert l + j * channels == i;
    SliceLength(data, l, channels, j);
    SliceIndex(data, l, channels, j);
  }

  /** ... and nowhere else: the element at lane l, position j is element i only for that lane and position. */
  lemma LanePositionUnique(channels: nat, l: nat, j: nat, i: nat)
    requires channels > 0 && l < channels && l + j * channels == i
    ensures l == i % channels && j == i / channels
  {
    DivUnique(i, channels, j, l);
  }

  /** The total number of elements in a list of lanes. */
  function TotalLength<T>(lanes: seq<seq<T>>): nat
  {
    if lanes == [] then 0 else TotalLength(lanes[..|lanes| - 1]) + |lanes[|lanes| - 1]|
  }

  /** The summed lengths of the first k lanes. */
  function SliceLengths<T>(data: seq<T>, channels: nat, k: nat): nat
    requires channels > 0
  {
    if k == 0 then 0 else SliceLengths(data, channels, k - 1) + |Slice(data, k - 1, channels)|
  }

  /** A buffer shorter than a row puts one element in each of its first |data| lanes. */
  lemma {:induction false} SliceLengthsShort<T>(data: seq<T>, channels: nat, k: nat)
    requires channels > 0 && |data| < channels && k <= channels
    ensures SliceLengths(data, channels, k) == if k <= |data| then k else |data|
  {
    if k > 0 {
      SliceLengthsShort(data, channels, k - 1);
      var s := Slice(data, k - 1, channels);
      if k - 1 < |data| {
        assert Slice(data, k - 1 + channels, channels) == [];
        assert |s| == 1;
      } else {
        assert s == [];
      }
    }
  }

  /** With a full first row, each of the first k lanes is one element longer than in the rest of the buffer. */
  lemma {:induction false} SliceLengthsRow<T>(data: seq<T>, channels: nat, k: nat)
    requires channels > 0 && channels <= |data| && k <= channels
    ensures SliceLengths(data, channels, k) == k + SliceLengths(data[channels..], channels, k)
  {
    if k > 0 {
      SliceLengthsRow(data, channels, k - 1);
      LaneRowLength(data, channels, k - 1);
    }
  }

  /** With a full first row, lane l holds one element of that row and then its lane of the rest. */
  lemma LaneRowLength<T>(data: seq<T>, channels: nat, l: nat)
    requires 0 < channels <= |data| && l < channels
    ensures |Slice(data, l, channels)| == 1 + |Slice(data[channels..], l, channels)|
  {
    assert Slice(data, l, channels) == [data[l]] + Slice(data, l + channels, channels);
    SliceShift(data, l, channels, channels);
  }

  /** The lanes of a buffer together have as many elements as it has. */
  lemma {:induction false} SliceLengthsAll<T>(data: seq<T>, channels: nat)
    requires channels > 0
    ensures SliceLengths(data, channels, channels) == |data|
    decreases |data|
  {
    if |data| < channels {
      SliceLengthsShort(data, channels, channels);
    } else {
      SliceLengthsRow(data, channels, channels);
      SliceLengthsAll(data[channels..], channels);
    }
  }

  /** The first k lanes' lengths add up as SliceLengths counts them. */
  lemma {:induction false} TotalLengthPrefix<T>(data: seq<T>, channels: nat, k: nat)
    requires channels > 0 && k <= channels
    ensures TotalLength(Lanes(data, channels)[..k]) == SliceLengths(data, channels, k)
  {
    var lanes := Lanes(data, channels);
    if k > 0 {
      TotalLengthPrefix(data, channels, k - 1);
      assert lanes[..k][..k - 1] == lanes[..k - 1];
      assert lanes[..k][k - 1] == Slice(data, k - 1, channels);
    }
  }

  /** The lanes hold every element once: their lengths sum to the buffer's length. */
  lemma LaneLengthsSum<T>(data: seq<T>, channels: nat)
    requires channels > 0
    ensures TotalLength(Lanes(data, channels)) == |data|
  {
    var lanes := Lanes(data, channels);
    TotalLengthPrefix(data, channels, channels);
    assert lanes[..channels] == lanes;
    SliceLengthsAll(data, channels);
  }

  /** Python's `a // b` on integers: the floor of the quotient, also for a negative divisor. */
  function FloorDiv(a: int, b: int): (r: int)
    requires b != 0
    ensures b < 0 && a >= 0 ==> r <= 0
  {
    if b > 0 then a / b else (-a) / (-b)
  }

  /** The number of elements in the complete rows of an n-element buffer. */
  function FullRows(n: nat, channels: nat): (r: nat)
    requires channels > 0
    ensures r <= n && n - r < channels
  {
    MulMono(0, n / channels, channels);
    (n / channels) * channels
  }

  /** Inside the de-interleave loop, `idx < len(data)` always holds: row i is complete. */
  lemma GuardHolds(n: nat, channels: nat, i: nat, lane: nat)
    requires channels > 0 && i < n / channels && lane < channels
    ensures lane + i * channels < n
  {
    MulMono(i + 1, n / channels, channels);
    MulAddDistrib(i, 1, channels);
  }

  /**
   * Lines 12-17: for each complete row i and each lane, append element
   * `lane + i * channels`.  The result is the longest prefix of whole rows;
   * `len(data) // channels` is a ZeroDivisionError for zero channels and
   * has no rows for a negative count.
   */
  method DeInterleave<T>(data: seq<T>, channels: int) returns (r: Result<seq<T>>)
    ensures channels == 0 ==> r == Err(DivisionByZero)
    ensures channels < 0 ==> r == Ok([])
    ensures channels > 0 ==> r == Ok(data[..FullRows(|data|, channels)])
  {
    if channels == 0 {
      return Err(DivisionByZero);
    }
    var reconstructed: seq<T> := [];
    var rows := FloorDiv(|data|, channels);
    assert channels < 0 ==> rows <= 0;
    assert channels > 0 ==> rows == |data| / channels && rows * channels == FullRows(|data|, channels);
    var i := 0;
    while i < rows
      invariant channels < 0 ==> i == 0 && reconstructed == []
      invariant channels > 0 ==> 0 <= i <= rows && i * channels <= |data|
      invariant channels > 0 ==> reconstructed == data[..i * channels]
    {
      assert channels > 0;
      var lane := 0;
      while lane < channels
        invariant 0 <= lane <= channels
        invariant i * channels + lane <= |data|
        invariant reconstructed == data[..i * channels + lane]
      {
        var idx := lane + i * channels;
        GuardHolds(|data|, channels, i, lane);
        if idx < |data| {
          assert data[..idx + 1] == data[..idx] + [data[idx]];
          reconstructed := reconstructed + [data[idx]];
        }
        lane := lane + 1;
      }
      assert i * channels + channels == (i + 1) * channels by { MulAddDistrib(i, 1, channels); }
      assert (i + 1) * channels <= rows * channels by { MulMono(i + 1, rows, channels); }
      i := i + 1;
    }
    return Ok(reconstructed);
  }

  /** Row i of the lanes, channel by channel: the i-th element of each lane. */
  function Row<T>(lanes: seq<seq<T>>, i: nat): (r: seq<T>)
    requires forall l :: 0 <= l < |lanes| ==> i < |lanes[l]|
    ensures |r| == |lanes| && forall l :: 0 <= l < |lanes| ==> r[l] == lanes[l][i]
  {
    seq(|lanes|, l requires 0 <= l < |lanes| => lanes[l][i])
  }

  /** The first `rows` rows of the lanes laid out channel-fastest: the linear dump of the physical view. */
  function Flatten<T>(lanes: seq<seq<T>>, rows: nat): seq<T>
    requires forall l :: 0 <= l < |lanes| ==> rows <= |lanes[l]|
  {
    if rows == 0 then [] else Flatten(lanes, rows - 1) + Row(lanes, rows - 1)
  }

  /** Address k of the flattened dump holds position k div C of lane k mod C. */
  lemma {:induction false} FlattenIndex<T>(lanes: seq<seq<T>>, rows: nat, k: nat)
    requires |lanes| > 0 && forall l :: 0 <= l < |lanes| ==> rows <= |lanes[l]|
    requires k < rows * |lanes|
    ensures |Flatten(lanes, rows)| == rows * |lanes|
    ensures k / |lanes| < rows && Flatten(lanes, rows)[k] == lanes[k % |lanes|][k / |lanes|]
  {
    var c := |lanes|;
    MulAddDistrib(rows - 1, 1, c);
    if k < (rows - 1) * c {
      FlattenIndex(lanes, rows - 1, k);
    } else {
      FlattenLength(lanes, rows - 1);
      var l := k - (rows - 1) * c;
      DivUnique(k, c, rows - 1, l);
    }
  }

  lemma {:induction false} FlattenLength<T>(lanes: seq<seq<T>>, rows: nat)
    requires forall l :: 0 <= l < |lanes| ==> rows <= |lanes[l]|
    ensures |Flatten(lanes, rows)| == rows * |lanes|
  {
    if rows > 0 {
      FlattenLength(lanes, rows - 1);
      MulAddDistrib(rows - 1, 1, |lanes|);
    }
  }

  /**
   * The round trip: when C divides the length, every lane has |data| / C
   * elements, flattening them channel-fastest gives the buffer back, and so
   * does de-interleaving that dump.
   */
  lemma RoundTrip<T>(data: seq<T>, channels: nat)
    requires channels > 0 && |data| % channels == 0
    ensures var lanes, rows := Lanes(data, channels), |data| / channels;
      && (forall l :: 0 <= l < channels ==> |lanes[l]| == rows)
      && Flatten(lanes, rows) == data
      && data[..FullRows(|data|, channels)] == data
  {
    var lanes, rows := Lanes(data, channels), |data| / channels;
    assert |data| == rows * channels;
    forall l | 0 <= l < channels ensures |lanes[l]| == rows {
      LaneContents(data, channels, l);
      assert l + (rows - 1) * channels < |data| by { MulAddDistrib(rows - 1, 1, channels); }
      assert !(rows < |lanes[l]|) by { MulMono(rows, rows, channels); }
      assert rows - 1 < |lanes[l]| ==> rows <= |lanes[l]|;
    }
    FlattenLength(lanes, rows);
    var flat := Flatten(lanes, rows);
    forall k | 0 <= k < |data| ensures flat[k] == data[k] {
      FlattenIndex(lanes, rows, k);
      IndexLane(data, channels, k);
    }
  }

  /**
   * `analyze_gpu_output(data, channels)` without its printing: the physical
   * view, which never fails, then the de-interleaved view, whose floor
   * division makes a zero channel count a ZeroDivisionError.
   */
  method AnalyzeGpuOutput<T>(data: seq<T>, channels: int) returns (r: Result<(seq<seq<T>>, seq<T>)>)
    ensures channels == 0 ==> r == Err(DivisionByZero)
    ensures channels < 0 ==> r == Ok(([], []))
    ensures channels > 0 ==> r == Ok((Lanes(data, channels), data[..FullRows(|data|, channels)]))
  {
    var lanes := Lanes(data, channels);
    var reconstructed := DeInterleave(data, channels);
    if reconstructed.Err? {
      return Err(reconstructed.error);
    }
    return Ok((lanes, reconstructed.value));
  }

  /** The example buffer 10..17 over four channels: lanes [10, 14], [11, 15], [12, 16], [13, 17], and back. */
  lemma FourChannelExample()
    ensures var data := [10, 11, 12, 13, 14, 15, 16, 17];
      && Lanes(data, 4) == [[10, 14], [11, 15], [12, 16], [13, 17]]
      && Flatten(Lanes(data, 4), 2) == data
  {
    var data := [10, 11, 12, 13, 14, 15, 16, 17];
    forall l | 0 <= l < 4 ensures Slice(data, l, 4) == [data[l], data[l + 4]] {
      assert Slice(data, l + 8, 4) == [];
      assert Slice(data, l + 4, 4) == [data[l + 4]];
    }
    var lanes := Lanes(data, 4);
    assert lanes[0] == [10, 14] && lanes[1] == [11, 15] && lanes[2] == [12, 16] && lanes[3] == [13, 17];
    assert lanes == [[10, 14], [11, 15], [12, 16], [13, 17]];
    RoundTrip(data, 4);
  }
}
