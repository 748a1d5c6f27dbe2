/**
 * Background removal by marker colour (the carve loop of `processImage`).
 * The working canvas holds the original image with red brush strokes painted
 * over it; every pixel of the working canvas that shows the marker colour
 * makes the same pixel of a fresh copy of the original fully transparent.
 */
module BackgroundCarver {
  import opened Common

  /**
   * The marker predicate, strict on all three channels: a marked pixel is
   * strongly red, its red exceeding both green and blue by more than 100.
   */
  predicate IsMarker(r: Byte, g: Byte, b: Byte)
    ensures IsMarker(r, g, b) ==> r > g + 101 && r > b + 101
  {
    r > 200 && g < 100 && b < 100
  }

  /** True when pixel `p` of the working buffer shows the marker colour. */
  predicate MarkedAt(working: seq<Byte>, p: nat)
    requires 4 * p + 3 < |working|
  {
    IsMarker(working[4 * p], working[4 * p + 1], working[4 * p + 2])
  }

  /** One pixel of the output: the original pixel, with alpha 0 when the working pixel is marked. */
  function CarvePixel(w: seq<Byte>, o: seq<Byte>): (q: seq<Byte>)
    requires |w| == 4 && |o| == 4
    ensures |q| == 4 && q[..3] == o[..3]
    ensures IsMarker(w[0], w[1], w[2]) ==> q[3] == 0
    ensures !IsMarker(w[0], w[1], w[2]) ==> q[3] == o[3]
  {
    if IsMarker(w[0], w[1], w[2]) then o[..3] + [0] else o
  }

  /** The carved buffer, pixel after pixel: the reference definition. */
  function Carved(working: seq<Byte>, original: seq<Byte>): (out: seq<Byte>)
    requires |working| == |original| && |original| % 4 == 0
    ensures |out| == |original|
    decreases |original|
  {
    if |original| == 0 then []
    else CarvePixel(working[..4], original[..4]) + Carved(working[4..], original[4..])
  }

  /** The byte the carve loop leaves at index `i` of the copy of the original. */
  function CarvedByte(working: seq<Byte>, original: seq<Byte>, i: nat): Byte
    requires |working| == |original| && i < |original|
  {
    if i % 4 == 3 && MarkedAt(working, i / 4) then 0 else original[i]
  }

  /** The pixel-by-pixel definition and the byte-wise one agree everywhere. */
  lemma {:induction false} CarvedAt(working: seq<Byte>, original: seq<Byte>, i: nat)
    requires |working| == |original| && |original| % 4 == 0 && i < |original|
    ensures Carved(working, original)[i] == CarvedByte(working, original, i)
    decreases |original|
  {
    if i >= 4 {
      CarvedAt(working[4..], original[4..], i - 4);
      assert (i - 4) / 4 == i / 4 - 1;
    }
  }

  /** Only alpha bytes can differ from the original; RGB is copied unchanged. */
  lemma OnlyAlphaChanges(working: seq<Byte>, original: seq<Byte>, i: nat)
    requires |working| == |original| && |original| % 4 == 0 && i < |original|
    ensures i % 4 != 3 ==> Carved(working, original)[i] == original[i]
    ensures i % 4 == 3 ==> Carved(working, original)[i] in {0, original[i]}
  {
    CarvedAt(working, original, i);
  }

  /** A pixel's output alpha is 0 when the working pixel is marked, and the original alpha otherwise. */
  lemma AlphaOfPixel(working: seq<Byte>, original: seq<Byte>, p: nat)
    requires |working| == |original| && |original| % 4 == 0 && 4 * p < |original|
    ensures Carved(working, original)[4 * p + 3] ==
              if MarkedAt(working, p) then 0 else original[4 * p + 3]
  {
    CarvedAt(working, original, 4 * p + 3);
    assert (4 * p + 3) / 4 == p;
  }

  /** With no marked pixel the output equals the original byte for byte. */
  lemma NoMarkerIsIdentity(working: seq<Byte>, original: seq<Byte>)
    requires |working| == |original| && |original| % 4 == 0
    requires forall p :: 0 <= p < |original| / 4 ==> !MarkedAt(working, p)
    ensures Carved(working, original) == original
  {
    forall i | 0 <= i < |original|
      ensures Carved(working, original)[i] == original[i]
    {
      CarvedAt(working, original, i);
    }
  }

  /** Carving the carved buffer again with the same working buffer changes nothing. */
  lemma CarveIdempotent(working: seq<Byte>, original: seq<Byte>)
    requires |working| == |original| && |original| % 4 == 0
    ensures Carved(working, Carved(working, original)) == Carved(working, original)
  {
    var once := Carved(working, original);
    forall i | 0 <= i < |original|
      ensures Carved(working, once)[i] == once[i]
    {
      CarvedAt(working, once, i);
      CarvedAt(working, original, i);
    }
  }

  /**
   * `processImage`: with no working canvas or no original image nothing happens
   * (None); otherwise a copy of the original has the alpha of every marked pixel
   * set to 0. The working canvas is only read.
   */
  method ProcessImage(canvas: Option<array<Byte>>, original: Option<seq<Byte>>)
    returns (carved: Option<seq<Byte>>)
    requires canvas.Some? && original.Some? ==>
               canvas.value.Length == |original.value| && |original.value| % 4 == 0
    ensures carved.None? <==> canvas.None? || original.None?
    ensures carved.Some? ==> carved.value == Carved(canvas.value[..], original.value)
  {
    if canvas.None? || original.None? {
      return None;
    }
    var imageData := canvas.value;
    var orig := original.value;
    // the original drawn onto a fresh canvas of the same size
    var tempImageData := new Byte[|orig|](j requires 0 <= j < |orig| => orig[j]);
    var i := 0;
    while i < imageData.Length
      invariant 0 <= i <= imageData.Length && i % 4 == 0
      invariant forall j :: 0 <= j < i ==>
                  tempImageData[j] == CarvedByte(imageData[..], orig, j)
      invariant forall j :: i <= j < tempImageData.Length ==> tempImageData[j] == orig[j]
    {
      if imageData[i] > 200 && imageData[i + 1] < 100 && imageData[i + 2] < 100 {
        tempImageData[i + 3] := 0;
      }
      i := i + 4;
    }
    forall j | 0 <= j < |orig|
      ensures tempImageData[j] == Carved(imageData[..], orig)[j]
    {
      CarvedAt(imageData[..], orig, j);
    }
    return Some(tempImageData[..]);
  }

  /** Two pixels: a marker pixel loses its alpha only, a plain pixel is untouched. */
  lemma TwoPixelExample()
    ensures Carved([255, 0, 0, 255, 10, 20, 30, 255], [255, 0, 0, 255, 10, 20, 30, 255])
            == [255, 0, 0, 0, 10, 20, 30, 255]
  {
    var s: seq<Byte> := [255, 0, 0, 255, 10, 20, 30, 255];
    assert s[4..][4..] == [];
  }
}
