/** `yuyv2rgb` of uvc/main.c: its nested loops over arrays, proved against a pointwise description of
    the RGB stream, and the shapes for which they stay inside their buffers. */
module Frame {
  import opened Prelude
  import opened Pixels

  // ----- The image, pixel by pixel -----

  /** Channel c of column j of the row whose first pixel is `start`: the luma of that pixel and the
      chroma shared by the two columns of its pair. */
  function RowByte(yuyv: seq<byte>, width: nat, start: nat, j: nat, c: nat): byte
    requires c < 3 && j < width && width % 2 == 0 && 2 * (start + width) <= |yuyv|
  {
    var pair := start + j - j % 2;
    assert pair + 2 <= start + width;
    Convert(c, yuyv[2 * (start + j)], yuyv[2 * pair + 1], yuyv[2 * pair + 3])
  }

  /** Channel c of pixel p of the stream: the luma at byte 2p, the chroma at bytes 4(p/2)+1 and
      4(p/2)+3. */
  function PixelByte(yuyv: seq<byte>, p: nat, c: nat): byte
    requires c < 3 && 4 * (p / 2) + 3 < |yuyv|
  {
    Convert(c, yuyv[2 * p], yuyv[4 * (p / 2) + 1], yuyv[4 * (p / 2) + 3])
  }

  /** The six bytes of pair q, pixels 2q and 2q + 1, are in place. */
  ghost predicate PairDone(rgb: seq<byte>, yuyv: seq<byte>, q: nat)
    requires 4 * q + 3 < |yuyv| && 6 * q + 5 < |rgb|
  {
    var u, v := yuyv[4 * q + 1], yuyv[4 * q + 3];
    && rgb[6 * q] == Convert(0, yuyv[4 * q], u, v)
    && rgb[6 * q + 1] == Convert(1, yuyv[4 * q], u, v)
    && rgb[6 * q + 2] == Convert(2, yuyv[4 * q], u, v)
    && rgb[6 * q + 3] == Convert(0, yuyv[4 * q + 2], u, v)
    && rgb[6 * q + 4] == Convert(1, yuyv[4 * q + 2], u, v)
    && rgb[6 * q + 5] == Convert(2, yuyv[4 * q + 2], u, v)
  }

  /** The RGB stream of the first `pixels` pixels, three bytes each. */
  function RgbStream(yuyv: seq<byte>, pixels: nat): (rgb: seq<byte>)
    requires pixels % 2 == 0 && 2 * pixels <= |yuyv|
    ensures |rgb| == 3 * pixels
  {
    seq(3 * pixels, k requires 0 <= k < 3 * pixels => PixelByte(yuyv, k / 3, k % 3))
  }

  lemma StreamAt(yuyv: seq<byte>, pixels: nat, p: nat, c: nat)
    requires pixels % 2 == 0 && 2 * pixels <= |yuyv| && p < pixels && c < 3
    ensures RgbStream(yuyv, pixels)[3 * p + c] == PixelByte(yuyv, p, c)
  {
    assert (3 * p + c) / 3 == p && (3 * p + c) % 3 == c;
  }

  /** When rows start at even pixels, the stream agrees with the rows. */
  lemma StreamRowByte(yuyv: seq<byte>, pixels: nat, width: nat, start: nat, j: nat, c: nat)
    requires pixels % 2 == 0 && 2 * pixels <= |yuyv| && start % 2 == 0 && width % 2 == 0
    requires start + width <= pixels && j < width && c < 3
    ensures RgbStream(yuyv, pixels)[3 * (start + j) + c] == RowByte(yuyv, width, start, j, c)
  {
    hide Convert, RgbStream;
    StreamAt(yuyv, pixels, start + j, c);
    assert 2 * ((start + j) / 2) == start + j - j % 2;
  }

  /** Its pairs determine the stream. */
  lemma StreamFromPairs(rgb: seq<byte>, yuyv: seq<byte>, pixels: nat)
    requires pixels % 2 == 0 && 2 * pixels <= |yuyv| && |rgb| == 3 * pixels
    requires forall q :: 0 <= q && 2 * q < pixels ==> PairDone(rgb, yuyv, q)
    ensures rgb == RgbStream(yuyv, pixels)
  {
    hide PairDone, PixelByte;
    forall k | 0 <= k < |rgb| ensures rgb[k] == PixelByte(yuyv, k / 3, k % 3) {
      var q, h, c := k / 6, k % 6 / 3, k % 3;
      SplitIndex(k);
      assert PairDone(rgb, yuyv, q);
      PairGivesPixels(rgb, yuyv, q, h, c);
    }
  }

  lemma SplitIndex(k: nat)
    ensures k % 6 / 3 < 2 && k / 3 == 2 * (k / 6) + k % 6 / 3 && k == 6 * (k / 6) + 3 * (k % 6 / 3) + k % 3
  {
  }

  lemma PairGivesPixels(rgb: seq<byte>, yuyv: seq<byte>, q: nat, h: nat, c: nat)
    requires h < 2 && c < 3 && 4 * q + 3 < |yuyv| && 6 * q + 5 < |rgb|
    requires PairDone(rgb, yuyv, q)
    ensures (2 * q + h) / 2 == q && rgb[6 * q + 3 * h + c] == PixelByte(yuyv, 2 * q + h, c)
  {
    hide Convert;
    var p := 2 * q + h;
    assert p / 2 == q;
    var y, u, v := yuyv[2 * p], yuyv[4 * q + 1], yuyv[4 * q + 3];
    assert rgb[3 * p] == Convert(0, y, u, v);
    assert rgb[3 * p + 1] == Convert(1, y, u, v);
    assert rgb[3 * p + 2] == Convert(2, y, u, v);
  }

  // ----- Index arithmetic -----

  /** Rows of even width start at an even pixel. */
  lemma EvenRows(width: nat, i: nat)
    requires width % 2 == 0
    ensures 0 <= i * width && (i * width) % 2 == 0
  {
    assert i * width == 2 * (i * (width / 2));
  }

  lemma RowEnd(width: nat, height: nat, i: nat)
    requires i < height
    ensures 0 <= i * width <= (i + 1) * width <= height * width
    ensures (i + 1) * width == i * width + width
  {
    assert (height - (i + 1)) * width >= 0;
    assert height * width == (i + 1) * width + (height - (i + 1)) * width;
  }

  // ----- When every access is inside its buffer -----

  const UINT32_RANGE := 0x1_0000_0000

  /** The size `calloc(width * height * 3, 1)` asks for: products of uint32_t wrap around. */
  function AllocationSize(width: nat, height: nat): nat {
    (width * height) % UINT32_RANGE * 3 % UINT32_RANGE
  }

  /** The four reads and six writes of the loop body at (i, j) stay inside an input of `available`
      bytes and the allocated output. */
  ghost predicate PairInBounds(width: nat, height: nat, available: nat, i: nat, j: nat) {
    var index := i * width + j;
    index * 2 + 3 < available && index * 3 + 5 < AllocationSize(width, height)
  }

  ghost predicate AllInBounds(width: nat, height: nat, available: nat) {
    forall i: nat, j: nat :: i < height && j < width && j % 2 == 0 ==>
      PairInBounds(width, height, available, i, j)
  }

  /** The shapes the loop is written for: no pixels, or an even width, enough input, and an output
      size that fits in 32 bits. */
  predicate Fits(width: nat, height: nat, available: nat) {
    width * height == 0 ||
    (width % 2 == 0 && 2 * (width * height) <= available && 3 * (width * height) < UINT32_RANGE)
  }

  /** These are exactly the shapes for which every access is inside its buffer. */
  lemma InBoundsExactly(width: nat, height: nat, available: nat)
    ensures AllInBounds(width, height, available) <==> Fits(width, height, available)
  {
    var area := width * height;
    AreaIsZero(width, height, area);
    if area == 0 {
    } else if Fits(width, height, available) {
      FitsInBounds(width, height, available);
    } else {
      var i, j := height - 1, width - 1 - (width - 1) % 2;
      RowEnd(width, height, i);
      assert j % 2 == 0;
      OutOfBoundsAt(area, width, height, available, i, i * width, j);
    }
  }

  lemma AreaIsZero(width: nat, height: nat, area: nat)
    requires area == width * height
    ensures area == 0 <==> width == 0 || height == 0
  {
  }

  lemma FitsInBounds(width: nat, height: nat, available: nat)
    requires width * height > 0 && Fits(width, height, available)
    ensures AllInBounds(width, height, available)
  {
    hide PairInBounds, AllocationSize;
    var area := width * height;
    forall i: nat, j: nat | i < height && j < width && j % 2 == 0
      ensures PairInBounds(width, height, available, i, j)
    {
      RowEnd(width, height, i);
      InBoundsAt(area, width, height, available, i, i * width, j);
    }
  }

  /** Below 2^32 nothing wraps. */
  lemma SizeExact(width: nat, height: nat, area: nat)
    requires area == width * height && 3 * area < UINT32_RANGE
    ensures AllocationSize(width, height) == 3 * area
  {
    NoWrap(area);
    NoWrap(3 * area);
  }

  lemma SizeBound(width: nat, height: nat, area: nat)
    requires area == width * height
    ensures AllocationSize(width, height) <= 3 * area && AllocationSize(width, height) < UINT32_RANGE
  {
    Wrap(area);
    Wrap(area % UINT32_RANGE * 3);
  }

  lemma NoWrap(a: nat)
    requires a < UINT32_RANGE
    ensures a % UINT32_RANGE == a
  {
  }

  lemma Wrap(a: nat)
    ensures 0 <= a % UINT32_RANGE <= a && a % UINT32_RANGE < UINT32_RANGE
  {
  }

  lemma InBoundsAt(area: nat, width: nat, height: nat, available: nat, i: nat, start: nat, j: nat)
    requires area == width * height && start == i * width
    requires width % 2 == 0 && 2 * area <= available && 3 * area < UINT32_RANGE
    requires start + width <= area && j < width && j % 2 == 0
    ensures PairInBounds(width, height, available, i, j)
  {
    SizeExact(width, height, area);
    hide AllocationSize;
  }

  /** The last pair of the last row is the one that does not fit. */
  lemma OutOfBoundsAt(area: nat, width: nat, height: nat, available: nat, i: nat, start: nat, j: nat)
    requires area == width * height > 0 && start == i * width && start + width == area
    requires width % 2 != 0 || available < 2 * area || UINT32_RANGE <= 3 * area
    requires j == width - 1 - (width - 1) % 2
    ensures !PairInBounds(width, height, available, i, j)
  {
    assert start + j + 2 >= area && (width % 2 != 0 ==> start + j + 1 == area);
    SizeBound(width, height, area);
    hide AllocationSize;
  }

  // ----- yuyv2rgb -----

  /** `yuyv2rgb` (uvc/main.c:224-242). The ghost result lists the output indices in the order in
      which the loop writes them. */
  method Yuyv2Rgb(yuyv: array<byte>, width: nat, height: nat)
    returns (rgb: array<byte>, ghost writes: seq<nat>)
    requires Fits(width, height, yuyv.Length)
    ensures fresh(rgb) && rgb.Length == 3 * (width * height)
    ensures width * height % 2 == 0 && 2 * (width * height) <= yuyv.Length
    ensures rgb[..] == RgbStream(yuyv[..], width * height)
    ensures writes == seq(rgb.Length, k => k)
  {
    ShapeFacts(width, height, yuyv.Length);
    rgb := new byte[AllocationSize(width, height)](_ => 0);
    writes := FillRgb(yuyv, rgb, width, height);
  }

  /** The outer loop. Whatever the output holds before, it holds the RGB stream afterwards, and every
      byte of it was written once, in ascending order. */
  method FillRgb(yuyv: array<byte>, rgb: array<byte>, width: nat, height: nat) returns (ghost writes: seq<nat>)
    requires yuyv != rgb && rgb.Length == 3 * (width * height)
    requires width * height % 2 == 0 && 2 * (width * height) <= yuyv.Length
    requires width > 0 && height > 0 ==> width % 2 == 0
    modifies rgb
    ensures rgb[..] == RgbStream(yuyv[..], width * height)
    ensures writes == seq(rgb.Length, k => k)
  {
    writes := [];
    ghost var half := width / 2;
    var i := 0;
    while i < height
      invariant 0 <= i <= height
      invariant Written(rgb[..], yuyv[..], writes, i * half)
    {
      RowOfPairs(width, height, i);
      writes := FillRow(yuyv, rgb, width, i * width, half, i * half, writes);
      i := i + 1;
    }
    AllPairs(width, height);
    StreamFromPairs(rgb[..], yuyv[..], width * height);
  }

  lemma RowOfPairs(width: nat, height: nat, i: nat)
    requires i < height && width > 0 ==> width % 2 == 0
    requires i < height
    ensures width == 2 * (width / 2) && i * width == 2 * (i * (width / 2)) >= 0
    ensures i * (width / 2) + width / 2 == (i + 1) * (width / 2)
    ensures i * width + width <= width * height
  {
    RowEnd(width, height, i);
  }

  lemma AllPairs(width: nat, height: nat)
    requires width > 0 && height > 0 ==> width % 2 == 0
    ensures width * height == 2 * (height * (width / 2))
  {
  }

  /** The inner loop, over the row whose first pixel is `start`. */
  method FillRow(yuyv: array<byte>, rgb: array<byte>, width: nat, start: nat,
                 ghost half: nat, ghost done: nat, ghost before: seq<nat>)
    returns (ghost writes: seq<nat>)
    requires yuyv != rgb && width == 2 * half && start == 2 * done
    requires 2 * (start + width) <= yuyv.Length && 3 * (start + width) <= rgb.Length
    requires Written(rgb[..], yuyv[..], before, done)
    modifies rgb
    ensures Written(rgb[..], yuyv[..], writes, done + half)
  {
    hide PairDone;
    writes := before;
    ghost var q := 0;
    var j := 0;
    while j < width
      invariant 0 <= q <= half && j == 2 * q
      invariant Written(rgb[..], yuyv[..], writes, done + q)
    {
      var index := start + j;
      ghost var snapshot := rgb[..];
      ghost var earlier := writes;
      writes := ConvertPair(yuyv, rgb, index, done + q, writes);
      WrittenStep(snapshot, rgb[..], yuyv[..], earlier, done + q);
      j, q := j + 2, q + 1;
    }
  }

  lemma ShapeFacts(width: nat, height: nat, available: nat)
    requires Fits(width, height, available)
    ensures AllocationSize(width, height) == 3 * (width * height)
    ensures width * height % 2 == 0 && 2 * (width * height) <= available
    ensures width > 0 && height > 0 ==> width % 2 == 0
  {
    var area := width * height;
    assert width > 0 && height > 0 ==> area > 0;
    SizeExact(width, height, area);
    hide AllocationSize;
    if area > 0 {
      assert area == 2 * (width / 2 * height);
    }
  }

  /** Every write to the output goes through here, so the ghost log is the log of all writes. */
  method Store(rgb: array<byte>, k: nat, value: byte, ghost before: seq<nat>) returns (ghost writes: seq<nat>)
    requires k < rgb.Length
    modifies rgb
    ensures rgb[..] == old(rgb[..])[k := value] && writes == before + [k]
  {
    rgb[k] := value;
    writes := before + [k];
  }

  /** The body of the loop: two pixels that share their chroma. */
  method ConvertPair(yuyv: array<byte>, rgb: array<byte>, index: nat, ghost q: nat, ghost before: seq<nat>)
    returns (ghost writes: seq<nat>)
    requires index == 2 * q && index * 2 + 3 < yuyv.Length && index * 3 + 5 < rgb.Length
    requires yuyv != rgb
    modifies rgb
    ensures forall k :: 0 <= k < rgb.Length && !(6 * q <= k < 6 * q + 6) ==> rgb[k] == old(rgb[k])
    ensures PairDone(rgb[..], yuyv[..], q) && writes == before + PairIndices(q)
  {
    hide Convert;
    var y0, u := yuyv[index * 2], yuyv[index * 2 + 1];
    var y1, v := yuyv[index * 2 + 2], yuyv[index * 2 + 3];
    writes := Store(rgb, index * 3, Convert(0, y0, u, v), before);
    writes := Store(rgb, index * 3 + 1, Convert(1, y0, u, v), writes);
    writes := Store(rgb, index * 3 + 2, Convert(2, y0, u, v), writes);
    writes := Store(rgb, index * 3 + 3, Convert(0, y1, u, v), writes);
    writes := Store(rgb, index * 3 + 4, Convert(1, y1, u, v), writes);
    writes := Store(rgb, index * 3 + 5, Convert(2, y1, u, v), writes);
    ghost var input, output := yuyv[..], rgb[..];
    assert output == old(rgb[..])[6 * q := output[6 * q]][6 * q + 1 := output[6 * q + 1]]
                       [6 * q + 2 := output[6 * q + 2]]
                       [6 * q + 3 := output[6 * q + 3]][6 * q + 4 := output[6 * q + 4]][6 * q + 5 := output[6 * q + 5]];
    assert forall k :: 0 <= k < rgb.Length ==> rgb[k] == output[k];
  }

  /** The first m pairs are done: their bytes are right and were written once, in order. */
  ghost predicate Written(rgb: seq<byte>, yuyv: seq<byte>, writes: seq<nat>, m: nat) {
    4 * m <= |yuyv| && 6 * m <= |rgb| && |writes| == 6 * m &&
    (forall k :: 0 <= k < 6 * m ==> writes[k] == k) &&
    (forall q :: 0 <= q < m ==> PairDone(rgb, yuyv, q))
  }

  /** The output indices the loop body writes for pair q. */
  ghost function PairIndices(q: nat): seq<nat> {
    [6 * q, 6 * q + 1, 6 * q + 2, 6 * q + 3, 6 * q + 4, 6 * q + 5]
  }

  lemma WrittenStep(before: seq<byte>, after: seq<byte>, yuyv: seq<byte>, writes: seq<nat>, m: nat)
    requires Written(before, yuyv, writes, m)
    requires |after| == |before| && 4 * m + 3 < |yuyv| && 6 * m + 5 < |after|
    requires forall k :: 0 <= k < 6 * m ==> after[k] == before[k]
    requires PairDone(after, yuyv, m)
    ensures Written(after, yuyv, writes + PairIndices(m), m + 1)
  {
    forall q | 0 <= q < m + 1 ensures PairDone(after, yuyv, q) {
      if q < m {
        assert PairDone(before, yuyv, q);
      }
    }
  }
}
