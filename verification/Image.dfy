/** The row copy of `jpeg`, the frame from YUYV bytes to the rows given to the encoder, and laws about
    whole frames (uvc/main.c:184-194, 220-242, 259-262). */
module Image {
  import opened Prelude
  import opened Pixels
  import opened Frame

  // ----- Rows -----

  /** Row i of a flat RGB image. */
  function Row(flat: seq<byte>, width: nat, i: nat): (row: seq<byte>)
    requires 3 * (i * width + width) <= |flat|
    ensures |row| == 3 * width
  {
    assert i * width >= 0;
    flat[3 * (i * width)..3 * (i * width + width)]
  }

  /** The first `height` rows of a flat RGB image. */
  function Rows(flat: seq<byte>, width: nat, height: nat): (rows: seq<seq<byte>>)
    requires 3 * (height * width) <= |flat|
    ensures |rows| == height
  {
    if height == 0 then []
    else
      RowEnd(width, height, height - 1);
      Rows(flat, width, height - 1) + [Row(flat, width, height - 1)]
  }

  function Flatten(rows: seq<seq<byte>>): seq<byte> {
    if |rows| == 0 then [] else Flatten(rows[..|rows| - 1]) + rows[|rows| - 1]
  }

  lemma {:induction false} RowsAt(flat: seq<byte>, width: nat, height: nat, i: nat)
    requires 3 * (height * width) <= |flat| && i < height
    ensures 3 * (i * width + width) <= |flat| && Rows(flat, width, height)[i] == Row(flat, width, i)
  {
    RowEnd(width, height, height - 1);
    if i < height - 1 {
      RowsAt(flat, width, height - 1, i);
    }
  }

  lemma RowAt(flat: seq<byte>, width: nat, height: nat, i: nat)
    requires 3 * (height * width) <= |flat| && i < height
    ensures 0 <= 3 * (i * width) <= 3 * (i * width + width) <= |flat|
    ensures Rows(flat, width, height)[i] == flat[3 * (i * width)..3 * (i * width + width)]
  {
    RowsAt(flat, width, height, i);
    assert i * width >= 0;
  }

  /** Cutting into rows loses nothing: the rows concatenate back to the flat image. */
  lemma {:induction false} RowsFlatten(flat: seq<byte>, width: nat, height: nat)
    requires 3 * (height * width) <= |flat|
    ensures 0 <= height * width && Flatten(Rows(flat, width, height)) == flat[..3 * (height * width)]
  {
    if height > 0 {
      var h := height - 1;
      RowEnd(width, height, h);
      RowsFlatten(flat, width, h);
      var rows := Rows(flat, width, height);
      assert rows[..h] == Rows(flat, width, h);
      assert Flatten(rows) == flat[..3 * (h * width)] + Row(flat, width, h);
    }
  }

  /** The row copy of `jpeg` (uvc/main.c:186-194): a fresh array per row, each holding its part of the
      flat image, so that the rows concatenate back to it. */
  method CopyRows(rgb: array<byte>, width: nat, height: nat) returns (image: array<array?<byte>>)
    requires rgb.Length == 3 * (height * width)
    requires height > 0 ==> 3 * width < UINT32_RANGE
    ensures fresh(image) && image.Length == height
    ensures forall i :: 0 <= i < height ==> image[i] != null && fresh(image[i])
    ensures forall i, k :: 0 <= i < k < height ==> image[i] != image[k]
    ensures forall i :: 0 <= i < height ==> image[i][..] == Rows(rgb[..], width, height)[i]
    ensures Flatten(Rows(rgb[..], width, height)) == rgb[..]
  {
    hide Rows, Row;
    image := new array?<byte>[height];
    var i := 0;
    while i < height
      invariant 0 <= i <= height
      invariant rgb[..] == old(rgb[..])
      invariant forall k :: 0 <= k < i ==> image[k] != null && fresh(image[k]) && image[k] as object != image
      invariant forall k, l :: 0 <= k < l < i ==> image[k] != image[l]
      invariant forall k :: 0 <= k < i ==> image[k][..] == Rows(rgb[..], width, height)[k]
    {
      RowEnd(width, height, i);
      NoWrap(width * 3);
      var row := new byte[width * 3 % UINT32_RANGE](_ => 0);
      CopyRow(rgb, row, width, i * width);
      RowAt(rgb[..], width, height, i);
      image[i] := row;
      i := i + 1;
    }
    RowsFlatten(rgb[..], width, height);
    assert rgb[..] == rgb[..][..3 * (height * width)];
  }

  /** Its inner loop. */
  method CopyRow(rgb: array<byte>, row: array<byte>, width: nat, start: nat)
    requires rgb != row && row.Length == 3 * width && 3 * (start + width) <= rgb.Length
    modifies row
    ensures row[..] == rgb[3 * start..3 * (start + width)]
  {
    var j := 0;
    while j < width
      invariant 0 <= j <= width
      invariant row[..][..3 * j] == rgb[..][3 * start..3 * (start + j)]
    {
      ghost var before := row[..];
      row[j * 3] := rgb[(start + j) * 3];
      row[j * 3 + 1] := rgb[(start + j) * 3 + 1];
      row[j * 3 + 2] := rgb[(start + j) * 3 + 2];
      assert row[..][..3 * j] == before[..3 * j];
      ExtendSlice(row[..], 0, 3 * j);
      ExtendSlice(rgb[..], 3 * start, 3 * (start + j));
      j := j + 1;
    }
  }

  lemma ExtendSlice(s: seq<byte>, a: nat, b: nat)
    requires a <= b && b + 3 <= |s|
    ensures s[a..b + 3] == s[a..b] + [s[b], s[b + 1], s[b + 2]]
  {
  }

  // ----- The whole frame -----

  /** The RGB image of a YUYV frame, row by row and column by column. */
  function Picture(yuyv: seq<byte>, width: nat, height: nat): (rows: seq<seq<byte>>)
    requires width % 2 == 0 && 2 * (height * width) <= |yuyv|
    ensures |rows| == height
  {
    seq(height, i requires 0 <= i < height => PictureRow(yuyv, width, height, i))
  }

  function PictureRow(yuyv: seq<byte>, width: nat, height: nat, i: nat): (row: seq<byte>)
    requires width % 2 == 0 && 2 * (height * width) <= |yuyv| && i < height
    ensures |row| == 3 * width
  {
    RowEnd(width, height, i);
    EvenRows(width, i);
    BytesFrom(yuyv, width, i * width)
  }

  function BytesFrom(yuyv: seq<byte>, width: nat, start: nat): (row: seq<byte>)
    requires width % 2 == 0 && 2 * (start + width) <= |yuyv|
    ensures |row| == 3 * width
    ensures forall k :: 0 <= k < 3 * width ==> row[k] == RowByte(yuyv, width, start, k / 3, k % 3)
  {
    seq(3 * width, k requires 0 <= k < 3 * width => RowByte(yuyv, width, start, k / 3, k % 3))
  }

  /** The stream, which knows nothing of rows, holds the bytes of a row from its start on. */
  lemma StreamRow(yuyv: seq<byte>, pixels: nat, width: nat, start: nat)
    requires width % 2 == 0 && start % 2 == 0 && pixels % 2 == 0
    requires start + width <= pixels && 2 * pixels <= |yuyv|
    ensures RgbStream(yuyv, pixels)[3 * start..3 * (start + width)] == BytesFrom(yuyv, width, start)
  {
    forall k | 0 <= k < 3 * width
      ensures RgbStream(yuyv, pixels)[3 * start + k] == BytesFrom(yuyv, width, start)[k]
    {
      StreamRowByte(yuyv, pixels, width, start, k / 3, k % 3);
    }
  }

  lemma PictureAt(yuyv: seq<byte>, width: nat, height: nat, i: nat, j: nat, c: nat)
    requires width % 2 == 0 && 2 * (height * width) <= |yuyv| && i < height && j < width && c < 3
    ensures 0 <= i * width && i * width + width <= height * width && (i * width) % 2 == 0
    ensures Picture(yuyv, width, height)[i][3 * j + c] == RowByte(yuyv, width, i * width, j, c)
  {
    RowEnd(width, height, i);
    EvenRows(width, i);
    assert (3 * j + c) / 3 == j && (3 * j + c) % 3 == c;
  }

  /** Cutting the stream into rows gives the picture, and flattening the picture gives the stream. */
  lemma PictureIsStream(yuyv: seq<byte>, width: nat, height: nat)
    requires width % 2 == 0 && 2 * (height * width) <= |yuyv|
    ensures height * width % 2 == 0
    ensures Rows(RgbStream(yuyv, height * width), width, height) == Picture(yuyv, width, height)
    ensures Flatten(Picture(yuyv, width, height)) == RgbStream(yuyv, height * width)
  {
    AllPairs(width, height);
    var flat := RgbStream(yuyv, height * width);
    forall i | 0 <= i < height ensures Rows(flat, width, height)[i] == Picture(yuyv, width, height)[i] {
      RowsAt(flat, width, height, i);
      RowEnd(width, height, i);
      EvenRows(width, i);
      StreamRow(yuyv, height * width, width, i * width);
    }
    assert Rows(flat, width, height) == Picture(yuyv, width, height);
    RowsFlatten(flat, width, height);
    assert flat[..3 * (height * width)] == flat;
  }

  /** From a captured YUYV frame to the rows for the encoder, as `main` runs it
      (uvc/main.c:259-262): row i, column j is the conversion of pixel (i, j). */
  method EncodeFrame(yuyv: array<byte>, width: nat, height: nat) returns (image: array<array?<byte>>)
    requires width % 2 == 0 && 2 * (height * width) <= yuyv.Length && 3 * (height * width) < UINT32_RANGE
    ensures fresh(image) && image.Length == height
    ensures forall i :: 0 <= i < height ==> image[i] != null && fresh(image[i])
    ensures forall i :: 0 <= i < height ==> image[i][..] == Picture(yuyv[..], width, height)[i]
  {
    if height > 0 {
      RowEnd(width, height, 0);
    }
    assert width * height == height * width;
    var rgb, _ := Yuyv2Rgb(yuyv, width, height);
    image := CopyRows(rgb, width, height);
    PictureIsStream(yuyv[..], width, height);
  }

  // ----- Laws about whole frames -----

  /** The bytes depend on the pixel stream only: two shapes of the same area give the same bytes. */
  lemma ShapeIndependence(yuyv: seq<byte>, width: nat, height: nat, width': nat, height': nat)
    requires width % 2 == 0 && width' % 2 == 0
    requires height * width == height' * width' && 2 * (height * width) <= |yuyv|
    ensures Flatten(Picture(yuyv, width, height)) == Flatten(Picture(yuyv, width', height'))
  {
    PictureIsStream(yuyv, width, height);
    PictureIsStream(yuyv, width', height');
  }

  /** Converting two frames stacked vertically stacks their pictures. */
  lemma Stacking(top: seq<byte>, bottom: seq<byte>, width: nat, height: nat, height': nat)
    requires width % 2 == 0 && |top| == 2 * (height * width) && 2 * (height' * width) <= |bottom|
    ensures 2 * ((height + height') * width) <= |top + bottom|
    ensures Picture(top + bottom, width, height + height')
            == Picture(top, width, height) + Picture(bottom, width, height')
  {
    assert (height + height') * width == height * width + height' * width;
    forall i | 0 <= i < height + height'
      ensures Picture(top + bottom, width, height + height')[i]
              == (Picture(top, width, height) + Picture(bottom, width, height'))[i]
    {
      if i < height {
        StackedTopRow(top, bottom, width, height, height', i);
      } else {
        StackedBottomRow(top, bottom, width, height, height', i - height);
      }
    }
  }

  lemma StackedTopRow(top: seq<byte>, bottom: seq<byte>, width: nat, height: nat, height': nat, i: nat)
    requires width % 2 == 0 && |top| == 2 * (height * width) && i < height
    requires 2 * ((height + height') * width) <= |top + bottom|
    ensures PictureRow(top + bottom, width, height + height', i) == PictureRow(top, width, height, i)
  {
    RowEnd(width, height, i);
    RowEnd(width, height + height', i);
    BytesShift(top + bottom, top, width, i * width, i * width);
  }

  lemma StackedBottomRow(top: seq<byte>, bottom: seq<byte>, width: nat, height: nat, height': nat, i: nat)
    requires width % 2 == 0 && |top| == 2 * (height * width) && i < height'
    requires 2 * (height' * width) <= |bottom|
    requires 2 * ((height + height') * width) <= |top + bottom|
    ensures PictureRow(top + bottom, width, height + height', height + i) == PictureRow(bottom, width, height', i)
  {
    RowEnd(width, height', i);
    RowEnd(width, height + height', height + i);
    assert (height + i) * width == height * width + i * width;
    BytesShift(top + bottom, bottom, width, (height + i) * width, i * width);
  }

  /** The bytes of a row depend only on the input bytes of that row. */
  lemma BytesShift(a: seq<byte>, b: seq<byte>, width: nat, m: nat, n: nat)
    requires width % 2 == 0 && 2 * (m + width) <= |a| && 2 * (n + width) <= |b|
    requires a[2 * m..2 * (m + width)] == b[2 * n..2 * (n + width)]
    ensures BytesFrom(a, width, m) == BytesFrom(b, width, n)
  {
    hide RowByte;
    forall k | 0 <= k < 3 * width ensures BytesFrom(a, width, m)[k] == BytesFrom(b, width, n)[k] {
      RowByteShift(a, b, width, m, n, k / 3, k % 3);
    }
  }

  lemma RowByteShift(a: seq<byte>, b: seq<byte>, width: nat, m: nat, n: nat, j: nat, c: nat)
    requires width % 2 == 0 && 2 * (m + width) <= |a| && 2 * (n + width) <= |b| && j < width && c < 3
    requires a[2 * m..2 * (m + width)] == b[2 * n..2 * (n + width)]
    ensures RowByte(a, width, m, j, c) == RowByte(b, width, n, j, c)
  {
    hide Convert;
    var pair := j - j % 2;
    assert pair + 2 <= width;
    SliceAt(a, b, 2 * m, 2 * n, 2 * width, 2 * j);
    SliceAt(a, b, 2 * m, 2 * n, 2 * width, 2 * pair + 1);
    SliceAt(a, b, 2 * m, 2 * n, 2 * width, 2 * pair + 3);
  }

  lemma SliceAt(a: seq<byte>, b: seq<byte>, m: nat, n: nat, length: nat, k: nat)
    requires k < length && m + length <= |a| && n + length <= |b|
    requires a[m..m + length] == b[n..n + length]
    ensures a[m + k] == b[n + k]
  {
    assert a[m..m + length][k] == b[n..n + length][k];
  }

  /** With the same chroma and nowhere less luma, no output byte is less. */
  lemma PictureMonotone(dark: seq<byte>, light: seq<byte>, width: nat, height: nat, i: nat, j: nat, c: nat)
    requires width % 2 == 0 && 2 * (height * width) <= |dark| == |light| && i < height && j < width && c < 3
    requires forall b :: 0 <= b < |dark| ==> if b % 2 == 0 then dark[b] <= light[b] else dark[b] == light[b]
    ensures Picture(dark, width, height)[i][3 * j + c] <= Picture(light, width, height)[i][3 * j + c]
  {
    hide RowByte;
    PictureAt(dark, width, height, i, j, c);
    PictureAt(light, width, height, i, j, c);
    RowByteMonotone(dark, light, width, i * width, j, c);
  }

  lemma RowByteMonotone(dark: seq<byte>, light: seq<byte>, width: nat, start: nat, j: nat, c: nat)
    requires c < 3 && j < width && width % 2 == 0 && 2 * (start + width) <= |dark| == |light|
    requires forall b :: 0 <= b < |dark| ==> if b % 2 == 0 then dark[b] <= light[b] else dark[b] == light[b]
    ensures RowByte(dark, width, start, j, c) <= RowByte(light, width, start, j, c)
  {
    var luma, pair := 2 * (start + j), 2 * (start + j - j % 2);
    assert dark[luma] <= light[luma] && dark[pair + 1] == light[pair + 1] && dark[pair + 3] == light[pair + 3];
    ConvertMonotone(c, dark[luma], light[luma], dark[pair + 1], dark[pair + 3]);
  }

  /** With neutral chroma everywhere, each of the three bytes of a pixel is its luma. */
  lemma GreyPicture(yuyv: seq<byte>, width: nat, height: nat, i: nat, j: nat, c: nat)
    requires width % 2 == 0 && 2 * (height * width) <= |yuyv| && i < height && j < width && c < 3
    requires forall b :: 0 <= b < |yuyv| && b % 2 == 1 ==> yuyv[b] == 128
    ensures 0 <= i * width && i * width + width <= height * width
    ensures Picture(yuyv, width, height)[i][3 * j + c] == yuyv[2 * (i * width + j)]
  {
    hide RowByte;
    PictureAt(yuyv, width, height, i, j, c);
    GreyRowByte(yuyv, width, i * width, j, c);
  }

  lemma GreyRowByte(yuyv: seq<byte>, width: nat, start: nat, j: nat, c: nat)
    requires c < 3 && j < width && width % 2 == 0 && 2 * (start + width) <= |yuyv|
    requires forall b :: 0 <= b < |yuyv| && b % 2 == 1 ==> yuyv[b] == 128
    ensures RowByte(yuyv, width, start, j, c) == yuyv[2 * (start + j)]
  {
    hide Convert;
    var pair := start + j - j % 2;
    OddIndex(pair);
    OddIndex(pair + 1);
    assert pair + 2 <= start + width;
    assert yuyv[2 * pair + 1] == 128 && yuyv[2 * pair + 3] == 128;
    NeutralChroma(c, yuyv[2 * (start + j)]);
  }

  lemma OddIndex(k: nat)
    ensures (2 * k + 1) % 2 == 1
  {
  }

  /** The red and blue of every pixel of every frame: within the error bounds of the clamped exact
      values of T.871, the rounded standard byte or one less, and that byte exactly for the inputs that
      SameByte describes. */
  lemma PictureAccuracy(yuyv: seq<byte>, width: nat, height: nat, i: nat, j: nat)
    requires width % 2 == 0 && 2 * (height * width) <= |yuyv| && i < height && j < width
    ensures 0 <= i * width && i * width + width <= height * width
    ensures Accurate(yuyv, width, i * width, j,
                     Picture(yuyv, width, height)[i][3 * j], Picture(yuyv, width, height)[i][3 * j + 2])
  {
    hide RowByte, Accurate;
    PictureAt(yuyv, width, height, i, j, 0);
    PictureAt(yuyv, width, height, i, j, 2);
    RowByteAccuracy(yuyv, width, i * width, j);
  }

  ghost predicate Accurate(yuyv: seq<byte>, width: nat, start: nat, j: nat, red: byte, blue: byte)
    requires j < width && width % 2 == 0 && 2 * (start + width) <= |yuyv|
  {
    var pair := 2 * (start + j - j % 2);
    assert pair + 4 <= 2 * (start + width);
    var y, u, v := yuyv[2 * (start + j)], yuyv[pair + 1], yuyv[pair + 3];
    && Within(red, ClampReal(ExactRed(y, v)), 1.05, 0.05)
    && Within(blue, ClampReal(ExactBlue(y, u)), 1.19, 0.19)
    && StandardRed(y, v) - 1 <= red <= StandardRed(y, v)
    && StandardBlue(y, u) - 1 <= blue <= StandardBlue(y, u)
    && (red == StandardRed(y, v) <==> SameByte(y, v, 359, 1402))
    && (blue == StandardBlue(y, u) <==> SameByte(y, u, 454, 1772))
  }

  lemma RowByteAccuracy(yuyv: seq<byte>, width: nat, start: nat, j: nat)
    requires j < width && width % 2 == 0 && 2 * (start + width) <= |yuyv|
    ensures Accurate(yuyv, width, start, j, RowByte(yuyv, width, start, j, 0), RowByte(yuyv, width, start, j, 2))
  {
    hide Convert, Within, ClampReal, ExactRed, ExactBlue, StandardRed, StandardBlue, SameByte;
    var pair := 2 * (start + j - j % 2);
    StandardExactly(yuyv[2 * (start + j)], yuyv[pair + 1], yuyv[pair + 3]);
    AccuracyT871(yuyv[2 * (start + j)], yuyv[pair + 1], yuyv[pair + 3]);
    OffByAtMostOne(yuyv[2 * (start + j)], yuyv[pair + 1], yuyv[pair + 3]);
  }
}
