/** The part of `main` in uvc/main.c that takes a picture: the captures and the image made of the head. */
module Snapshot {
  import opened Prelude
  import opened Ownership
  import opened Camera
  import opened Frame
  import opened Image

  /** The picture depends only on the first two bytes per pixel. */
  lemma PictureOfPrefix(a: seq<byte>, b: seq<byte>, width: nat, height: nat)
    requires width % 2 == 0 && 2 * (height * width) <= |a| && 2 * (height * width) <= |b|
    requires a[..2 * (height * width)] == b[..2 * (height * width)]
    ensures Picture(a, width, height) == Picture(b, width, height)
  {
    forall i | 0 <= i < height ensures PictureRow(a, width, height, i) == PictureRow(b, width, height, i) {
      RowEnd(width, height, i);
      EvenRows(width, i);
      SameSlice(a, b, 2 * (height * width), 2 * (i * width), 2 * (i * width + width));
      BytesShift(a, b, width, i * width, i * width);
    }
  }

  lemma SameSlice(a: seq<byte>, b: seq<byte>, n: nat, from: nat, to: nat)
    requires from <= to <= n <= |a| && n <= |b| && a[..n] == b[..n]
    ensures a[from..to] == b[from..to]
  {
    assert a[from..to] == a[..n][from..to] && b[from..to] == b[..n][from..to];
  }

  /** Conversion and row copy of the head (uvc/main.c:259-262). The rows are the picture of the head buffer
      as it stands; if the bytes in use fill the picture, they are the picture of these bytes. */
  method EncodeHead(cam: Camera, dev: Device, width: nat, height: nat) returns (image: array<array?<byte>>)
    requires cam.Valid(dev)
    requires width % 2 == 0 && 2 * (height * width) <= MaxLength(cam.lengths) && 3 * (height * width) < UINT32_RANGE
    ensures image.Length == height && forall i :: 0 <= i < height ==> image[i] != null
    ensures forall i :: 0 <= i < height ==> image[i][..] == Picture(cam.headStart[..], width, height)[i]
    ensures 2 * (height * width) <= |cam.Head(dev)| ==>
      forall i :: 0 <= i < height ==> image[i][..] == Picture(cam.Head(dev), width, height)[i]
  {
    hide Picture, MaxLength;
    assert cam.headStart != null && cam.headStart.Length == MaxLength(cam.lengths);
    assert cam.Head(dev) == cam.headStart[..cam.headLength];
    hide Camera.Valid, Camera.Head;
    image := EncodeFrame(cam.headStart, width, height);
    if 2 * (height * width) <= |cam.Head(dev)| {
      PictureOfPrefix(cam.headStart[..], cam.Head(dev), width, height);
    }
  }

  lemma HeadFits(cam: Camera, dev: Device)
    requires cam.Valid(dev)
    ensures cam.headStart != null && cam.headStart.Length == MaxLength(cam.lengths)
  {
  }

  /** The last frame that was dequeued is enough for a picture of this size. */
  predicate Fills(answers: seq<Answer>, width: nat, height: nat) {
    LastFrame(answers).Some? && 2 * (height * width) <= |LastFrame(answers).value.payload|
  }

  /** The captures of `main` and the rows it gives to the encoder (uvc/main.c:254-262). If the last frame
      that was dequeued fills the picture, the rows are the picture of its payload, whatever the frames
      before it and the failed captures after it. The code reads the head up to the size it assumes, so
      this must be within the largest buffer. */
  method TakePicture(cam: Camera, dev: Device, raw: seq<RawAnswer>, width: nat, height: nat)
    returns (image: array<array?<byte>>)
    requires cam.Valid(dev) && Resting(cam.bufferCount, dev.log)
    requires MayAnswerAll(Replay(cam.bufferCount, dev.log).value, cam.lengths, ResolvedAll(raw))
    requires width % 2 == 0 && 2 * (height * width) <= MaxLength(cam.lengths) && 3 * (height * width) < UINT32_RANGE
    modifies cam`headLength, cam.headStart, dev`log, dev.regions
    ensures cam.Valid(dev) && dev.log == old(dev.log) + AllEvents(ResolvedAll(raw))
    ensures image.Length == height && forall i :: 0 <= i < height ==> image[i] != null
    ensures cam.headStart == old(cam.headStart) && 2 * (height * width) <= cam.headStart.Length
    ensures forall i :: 0 <= i < height ==> image[i][..] == Picture(cam.headStart[..], width, height)[i]
    ensures Fills(ResolvedAll(raw), width, height) ==>
      forall i :: 0 <= i < height ==>
        image[i][..] == Picture(LastFrame(ResolvedAll(raw)).value.payload, width, height)[i]
  {
    hide Camera.Valid, Camera.Head, Picture, MaxLength, Replay, Resting, MayAnswerAll, ResolvedAll, AllEvents,
         LastFrame;
    CaptureAll(cam, dev, raw);
    HeadFits(cam, dev);
    image := EncodeHead(cam, dev, width, height);
  }
}
