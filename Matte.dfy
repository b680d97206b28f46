/**
 * The white-background matte of `UIImage.removingWhiteBackground(threshold:)`:
 * the image is drawn into a zero-filled RGBA buffer of 4 bytes per pixel,
 * every pixel whose red, green and blue bytes all exceed the threshold gets
 * alpha 0, and the buffer becomes the new image.
 */
module Matte {
  import opened Wrappers

  /** Swift's `UInt8`. */
  newtype UInt8 = x: int | 0 <= x < 256

  /** The default threshold of `removingWhiteBackground`. */
  const DefaultThreshold: UInt8 := 240

  /** The rule of one pixel: all three colour bytes strictly above the threshold. */
  predicate IsNearWhite(r: UInt8, g: UInt8, b: UInt8, threshold: UInt8)
  {
    r > threshold && g > threshold && b > threshold
  }

  /** One RGBA pixel after the rule: colour kept, alpha cleared when near white. */
  function MattedPixel(p: seq<UInt8>, threshold: UInt8): seq<UInt8>
    requires |p| == 4
  {
    [p[0], p[1], p[2], if IsNearWhite(p[0], p[1], p[2], threshold) then 0 else p[3]]
  }

  /** The reference matte of a whole buffer, pixel after pixel. */
  function Matted(s: seq<UInt8>, threshold: UInt8): seq<UInt8>
    requires |s| % 4 == 0
    decreases |s|
  {
    if |s| == 0 then [] else MattedPixel(s[..4], threshold) + Matted(s[4..], threshold)
  }

  /** The byte at index `k` of the matted buffer, read off the input alone. */
  function MattedByte(s: seq<UInt8>, k: nat, threshold: UInt8): UInt8
    requires k < |s|
  {
    if k % 4 == 3 && IsNearWhite(s[k - 3], s[k - 2], s[k - 1], threshold) then 0 else s[k]
  }

  lemma {:induction false} MattedLength(s: seq<UInt8>, threshold: UInt8)
    requires |s| % 4 == 0
    ensures |Matted(s, threshold)| == |s|
    decreases |s|
  {
    if |s| > 0 {
      MattedLength(s[4..], threshold);
    }
  }

  /** Every byte of the matte depends only on its own pixel of the input. */
  lemma {:induction false} MattedAt(s: seq<UInt8>, k: nat, threshold: UInt8)
    requires |s| % 4 == 0 && k < |s|
    ensures |Matted(s, threshold)| == |s|
    ensures Matted(s, threshold)[k] == MattedByte(s, k, threshold)
    decreases |s|
  {
    MattedLength(s, threshold);
    if k >= 4 {
      MattedAt(s[4..], k - 4, threshold);
      assert Matted(s, threshold)[k] == Matted(s[4..], threshold)[k - 4];
    }
  }

  /**
   * Per pixel: the three colour bytes are never changed, and the alpha byte is
   * 0 exactly when the pixel is near white and is kept otherwise.
   */
  lemma MattedPixelAt(s: seq<UInt8>, i: nat, threshold: UInt8)
    requires |s| % 4 == 0 && i % 4 == 0 && i < |s|
    ensures |Matted(s, threshold)| == |s|
    ensures Matted(s, threshold)[i] == s[i]
    ensures Matted(s, threshold)[i + 1] == s[i + 1]
    ensures Matted(s, threshold)[i + 2] == s[i + 2]
    ensures IsNearWhite(s[i], s[i + 1], s[i + 2], threshold) ==> Matted(s, threshold)[i + 3] == 0
    ensures !IsNearWhite(s[i], s[i + 1], s[i + 2], threshold) ==> Matted(s, threshold)[i + 3] == s[i + 3]
  {
    MattedAt(s, i, threshold);
    MattedAt(s, i + 1, threshold);
    MattedAt(s, i + 2, threshold);
    MattedAt(s, i + 3, threshold);
  }

  /** Running the matte twice gives the same buffer as running it once. */
  lemma {:induction false} MattedIdempotent(s: seq<UInt8>, threshold: UInt8)
    requires |s| % 4 == 0
    ensures |Matted(s, threshold)| == |s|
    ensures Matted(Matted(s, threshold), threshold) == Matted(s, threshold)
  {
    var m := Matted(s, threshold);
    MattedLength(s, threshold);
    MattedLength(m, threshold);
    forall k | 0 <= k < |s|
      ensures Matted(m, threshold)[k] == m[k]
    {
      MattedAt(m, k, threshold);
      MattedAt(s, k, threshold);
      if k % 4 == 3 {
        MattedAt(s, k - 3, threshold);
        MattedAt(s, k - 2, threshold);
        MattedAt(s, k - 1, threshold);
      }
    }
  }

  /** No byte exceeds 255, so threshold 255 leaves every buffer as it is. */
  lemma {:induction false} MattedAt255(s: seq<UInt8>)
    requires |s| % 4 == 0
    ensures Matted(s, 255) == s
  {
    MattedLength(s, 255);
    forall k | 0 <= k < |s|
      ensures Matted(s, 255)[k] == s[k]
    {
      MattedAt(s, k, 255);
    }
  }

  /**
   * Pixels are matted independently: the matte of two buffers laid end to end
   * is the two mattes laid end to end.
   */
  lemma {:induction false} MattedConcat(a: seq<UInt8>, b: seq<UInt8>, threshold: UInt8)
    requires |a| % 4 == 0 && |b| % 4 == 0
    ensures Matted(a + b, threshold) == Matted(a, threshold) + Matted(b, threshold)
    decreases |a|
  {
    if |a| > 0 {
      assert (a + b)[..4] == a[..4];
      assert (a + b)[4..] == a[4..] + b;
      MattedConcat(a[4..], b, threshold);
    } else {
      assert a + b == b;
    }
  }

  /** The two pixels of the rule's worked example at the default threshold. */
  lemma MattedExamples()
    ensures Matted([250, 252, 245, 255], DefaultThreshold) == [250, 252, 245, 0]
    ensures Matted([200, 252, 245, 255], DefaultThreshold) == [200, 252, 245, 255]
  {
    assert Matted([250, 252, 245, 255], DefaultThreshold)
      == MattedPixel([250, 252, 245, 255], DefaultThreshold) + Matted([], DefaultThreshold);
    assert Matted([200, 252, 245, 255], DefaultThreshold)
      == MattedPixel([200, 252, 245, 255], DefaultThreshold) + Matted([], DefaultThreshold);
  }

  /** The pixel start offsets 0, 4, 8, ... below `count`, in order. */
  function PixelStarts(count: nat): seq<nat>
  {
    seq((count + 3) / 4, j requires 0 <= j => 4 * j)
  }

  /**
   * The stride loop over the buffer: every pixel start is visited once, in
   * order, and the buffer ends as the reference matte of what it held.
   */
  method ClearNearWhitePixels(pixelData: array<UInt8>, threshold: UInt8) returns (ghost visited: seq<nat>)
    requires pixelData.Length % 4 == 0
    modifies pixelData
    ensures pixelData[..] == Matted(old(pixelData[..]), threshold)
    ensures visited == PixelStarts(pixelData.Length)
  {
    ghost var before := pixelData[..];
    visited := [];
    var i := 0;
    while i < pixelData.Length
      invariant 0 <= i <= pixelData.Length && i % 4 == 0
      invariant visited == PixelStarts(i)
      invariant forall k :: 0 <= k < i ==> pixelData[k] == MattedByte(before, k, threshold)
      invariant forall k :: i <= k < pixelData.Length ==> pixelData[k] == before[k]
    {
      var r := pixelData[i];
      var g := pixelData[i + 1];
      var b := pixelData[i + 2];
      if r > threshold && g > threshold && b > threshold {
        pixelData[i + 3] := 0;
      }
      visited := visited + [i];
      i := i + 4;
    }
    MattedLength(before, threshold);
    forall k | 0 <= k < pixelData.Length
      ensures pixelData[k] == Matted(before, threshold)[k]
    {
      MattedAt(before, k, threshold);
    }
  }

  /** A decoded bitmap as CoreGraphics hands it over: its size and its RGBA samples. */
  datatype CGImage = CGImage(width: nat, height: nat, samples: seq<UInt8>)

  /** The image `removingWhiteBackground` returns: its size and its RGBA buffer. */
  datatype Image = Image(width: nat, height: nat, pixels: seq<UInt8>)

  /**
   * What drawing the bitmap into a zero-filled buffer of `count` bytes leaves:
   * the decoded samples, and zero wherever the bitmap supplies none.
   */
  function Drawn(cgImage: CGImage, count: nat): seq<UInt8>
  {
    seq(count, k requires 0 <= k < count => if k < |cgImage.samples| then cgImage.samples[k] else 0)
  }

  /**
   * The drawn buffer holds exactly the bitmap's samples when there is one
   * sample per byte, and otherwise starts with as many of them as fit.
   */
  lemma DrawnKeepsSamples(cgImage: CGImage, count: nat)
    ensures |Drawn(cgImage, count)| == count
    ensures |cgImage.samples| == count ==> Drawn(cgImage, count) == cgImage.samples
    ensures |cgImage.samples| >= count ==> Drawn(cgImage, count) == cgImage.samples[..count]
    ensures |cgImage.samples| < count ==> Drawn(cgImage, count)[..|cgImage.samples|] == cgImage.samples
  {
  }

  /** `context.draw(cgImage, in:)` writing into the buffer. */
  method Draw(pixelData: array<UInt8>, cgImage: CGImage)
    modifies pixelData
    ensures pixelData[..] == Drawn(cgImage, pixelData.Length)
  {
    forall k | 0 <= k < pixelData.Length {
      pixelData[k] := if k < |cgImage.samples| then cgImage.samples[k] else 0;
    }
  }

  /**
   * `removingWhiteBackground(threshold:)`, whose threshold defaults to 240. `source` is the image's backing
   * bitmap (`nil` when there is none); `contextCreated` and `outputCreated` say
   * whether CoreGraphics manages to create the drawing context and the output
   * image. The result is `nil` exactly when one of those steps fails; otherwise
   * it has the source's size and the matte of the drawn buffer.
   */
  method RemovingWhiteBackground(source: Option<CGImage>, contextCreated: bool, outputCreated: bool,
                                 threshold: UInt8 := DefaultThreshold)
    returns (result: Option<Image>)
    ensures result.None? <==> source.None? || !contextCreated || !outputCreated
    ensures result.Some? ==>
      && result.value.width == source.value.width
      && result.value.height == source.value.height
      && |result.value.pixels| == source.value.width * source.value.height * 4
      && result.value.pixels == Matted(Drawn(source.value, source.value.width * source.value.height * 4), threshold)
  {
    if source.None? {
      return None;
    }
    var cgImage := source.value;
    var width := cgImage.width;
    var height := cgImage.height;
    var pixelData := new UInt8[width * height * 4](_ => 0);
    if !contextCreated {
      return None;
    }
    Draw(pixelData, cgImage);
    ghost var drawn := pixelData[..];
    ghost var visited := ClearNearWhitePixels(pixelData, threshold);
    if !outputCreated {
      return None;
    }
    MattedLength(drawn, threshold);
    result := Some(Image(width, height, pixelData[..]));
  }
}
