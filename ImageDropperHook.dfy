/**
 * src/hooks/useImageDropper.tsx: the bookkeeping around the dropped images: which
 * dropped files are kept, the downscaled dimensions, the default crop of each
 * compressed image, and deleting, clearing and re-cropping entries.
 */
module ImageDropperHook {
  import opened Wrappers
  import opened Types
  import opened RealFacts

  /** A dropped file: its name and its MIME type (`file.type`). */
  datatype File = File(name: string, mimeType: string)

  /** IImageData: a decoded image and its pixel dimensions. */
  datatype ImageData = ImageData(file: File, url: string, width: real, height: real)

  /** IImageDataWithCrop: a compressed image, its dimensions and its crop. */
  datatype ImageDataWithCrop =
    ImageDataWithCrop(file: File, url: string, width: real, height: real, cropPosition: CropValues)

  const MaxWidth: real := 800.0
  const MaxHeight: real := 600.0

  // ---------------------------------------------------------------- file filter

  /** `file.type.match('image.*')`, read as a scan: does "image" occur in t? */
  predicate MatchesImage(t: string)
    ensures MatchesImage(t) ==> 5 <= |t|
    ensures 5 <= |t| && t[|t| - 5..] == "image" ==> MatchesImage(t)
  {
    if |t| < 5 then false
    else
      assert 5 < |t| ==> t[1..][|t| - 6..] == t[|t| - 5..];
      t[..5] == "image" || MatchesImage(t[1..])
  }

  /** "image" occurs in t starting at index i. */
  ghost predicate ImageAt(t: string, i: nat)
  {
    i + 5 <= |t| && t[i..i + 5] == "image"
  }

  /** The scan finds exactly the strings in which "image" occurs somewhere. */
  lemma {:induction false} MatchesImageIff(t: string)
    ensures MatchesImage(t) <==> exists i: nat :: ImageAt(t, i)
  {
    if |t| >= 5 {
      MatchesImageIff(t[1..]);
      if t[..5] == "image" {
        assert t[0..5] == t[..5];
        assert ImageAt(t, 0);
      } else if MatchesImage(t) {
        var i: nat :| ImageAt(t[1..], i);
        assert t[i + 1..i + 1 + 5] == t[1..][i..i + 5];
        assert ImageAt(t, i + 1);
      }
      if exists i: nat :: ImageAt(t, i) {
        var i: nat :| ImageAt(t, i);
        if i == 0 {
          assert t[..5] == t[0..5];
        } else {
          assert t[1..][i - 1..i - 1 + 5] == t[i..i + 5];
          assert ImageAt(t[1..], i - 1);
          assert MatchesImage(t[1..]);
        }
        assert MatchesImage(t);
      }
    }
  }

  /** The files handleDrop keeps: those whose type matches, in drop order. */
  function ImageFiles(files: seq<File>): (r: seq<File>)
    ensures |r| <= |files|
    ensures forall k :: 0 <= k < |r| ==> r[k] in files && MatchesImage(r[k].mimeType)
  {
    if files == [] then []
    else
      var last := files[|files| - 1];
      ImageFiles(files[..|files| - 1]) + (if MatchesImage(last.mimeType) then [last] else [])
  }

  /** A file is kept exactly when it was dropped and its type matches. */
  lemma {:induction false} ImageFilesMembership(files: seq<File>, f: File)
    ensures f in ImageFiles(files) <==> f in files && MatchesImage(f.mimeType)
  {
    if files != [] {
      var init, last := files[..|files| - 1], files[|files| - 1];
      assert files == init + [last];
      ImageFilesMembership(init, f);
    }
  }

  /** Filtering distributes over concatenation, so the kept files stay in drop order. */
  lemma {:induction false} ImageFilesAppend(a: seq<File>, b: seq<File>)
    ensures ImageFiles(a + b) == ImageFiles(a) + ImageFiles(b)
  {
    if b == [] {
      assert a + b == a;
    } else {
      var init, last := b[..|b| - 1], b[|b| - 1];
      assert (a + b)[..|a + b| - 1] == a + init;
      assert (a + b)[|a + b| - 1] == last;
      ImageFilesAppend(a, init);
    }
  }

  /** handleDrop's first loop: push each file whose type matches 'image.*'. */
  method SelectImageFiles(files: seq<File>) returns (imageFiles: seq<File>)
    ensures imageFiles == ImageFiles(files)
  {
    imageFiles := [];
    for i := 0 to |files|
      invariant imageFiles == ImageFiles(files[..i])
    {
      var file := files[i];
      assert files[..i + 1][..i] == files[..i];
      if MatchesImage(file.mimeType) {
        imageFiles := imageFiles + [file];
      }
    }
    assert files[..|files|] == files;
  }

  // ---------------------------------------------------------------- downscaling

  /**
   * The compression step's dimensions: a landscape image wider than 800 is
   * brought to width 800, any other image taller than 600 to height 600, each
   * time scaling the other side by the same factor.
   */
  method Downscale(imageWidth: nat, imageHeight: nat) returns (width: real, height: real)
    ensures 0.0 <= width <= imageWidth as real && 0.0 <= height <= imageHeight as real
    ensures width * (imageHeight as real) == height * (imageWidth as real)
    ensures imageWidth > imageHeight ==>
      width <= MaxWidth && (imageWidth as real > MaxWidth ==> width == MaxWidth)
    ensures imageWidth <= imageHeight ==>
      height <= MaxHeight && (imageHeight as real > MaxHeight ==> height == MaxHeight)
    ensures (if imageWidth > imageHeight then imageWidth as real <= MaxWidth
             else imageHeight as real <= MaxHeight) ==>
      width == imageWidth as real && height == imageHeight as real
  {
    width := imageWidth as real;
    height := imageHeight as real;
    if width > height {
      if width > MaxWidth {
        ShrinkOther(height, width, MaxWidth);
        height := height * (MaxWidth / width);
        width := MaxWidth;
      }
    } else {
      if height > MaxHeight {
        ShrinkOther(width, height, MaxHeight);
        width := width * (MaxHeight / height);
        height := MaxHeight;
      }
    }
  }

  /**
   * Scaling `other` by limit / side, where side > limit > 0, shrinks it and keeps
   * the proportion: other' * side == limit * other.
   */
  lemma ShrinkOther(other: real, side: real, limit: real)
    requires 0.0 <= other && 0.0 < limit < side
    ensures 0.0 <= other * (limit / side) <= other
    ensures other * (limit / side) * side == limit * other
  {
    QuotientBelowOne(limit, side);
    assert (limit / side) * side == limit;
  }

  /** 0 < limit < side gives 0 < limit / side < 1. */
  lemma QuotientBelowOne(limit: real, side: real)
    requires 0.0 < limit < side
    ensures 0.0 < limit / side < 1.0
  {
    QuotientSigns(limit, side);
    QuotientSigns(side - limit, side);
  }

  // ---------------------------------------------------------------- default crop

  /**
   * The crop each compressed image starts with: the largest pixel-square region,
   * centred along the longer side.
   */
  function DefaultCrop(width: real, height: real): (c: CropValues)
    requires width >= 0.0 && height > 0.0
    ensures WithinImage(c)
    ensures width > 0.0 ==> c.width > 0.0 && c.height > 0.0
    ensures c.ratio == width / height
    ensures SquareInPixels(c)
    ensures width > height ==> c.y == 0.0 && c.height == 1.0 && c.x + c.width / 2.0 == 0.5
    ensures width <= height ==> c.x == 0.0 && c.width == 1.0 && c.y + c.height / 2.0 == 0.5
  {
    var r := CropValues(if width > height then ((width - height) / 2.0) / width else 0.0,
                        if width > height then 0.0 else ((height - width) / 2.0) / height,
                        if width > height then height / width else 1.0,
                        if width > height then 1.0 else width / height,
                        width / height);
    if width > height then
      CentredSpan(width, height);
      ReciprocalRatio(width, height);
      r
    else
      CentredSpan(height, width);
      r
  }

  /** An image of width 0 gets a degenerate crop: full width, zero height, at mid-height, ratio 0. */
  lemma DefaultCropZeroWidth(height: real)
    requires height > 0.0
    ensures DefaultCrop(0.0, height) == CropValues(0.0, 0.5, 1.0, 0.0, 0.0)
  {
    assert (height / 2.0) / height == 0.5;
  }

  /** The default crop of a 40 x 800 image: full width, 0.05 high, centred vertically. */
  lemma TallDefaultCrop()
    ensures DefaultCrop(40.0, 800.0) == CropValues(0.0, 0.475, 1.0, 0.05, 0.05)
  {
  }

  /**
   * Along the longer side, the offset ((long - short) / 2) / long and extent
   * short / long describe a centred span inside [0, 1].
   */
  lemma CentredSpan(long: real, short: real)
    requires long >= short >= 0.0 && long > 0.0
    ensures var offset, extent := ((long - short) / 2.0) / long, short / long;
      && 0.0 <= offset && 0.0 <= extent <= 1.0 && (short > 0.0 ==> 0.0 < extent)
      && offset + extent / 2.0 == 0.5 && offset + extent <= 1.0
  {
    var offset, extent := ((long - short) / 2.0) / long, short / long;
    assert offset * long == (long - short) / 2.0;
    assert extent * long == short;
    QuotientSigns((long - short) / 2.0, long);
    QuotientSigns(short, long);
    QuotientSigns(long - short, long);
    SpanAlgebra(offset, extent, long, short);
  }

  /** offset * long == (long - short) / 2 and extent * long == short give offset + extent / 2 == 1/2. */
  lemma SpanAlgebra(offset: real, extent: real, long: real, short: real)
    requires long != 0.0 && offset * long == (long - short) / 2.0 && extent * long == short
    ensures offset + extent / 2.0 == 0.5
  {
    assert (offset + extent / 2.0) * long == offset * long + (extent * long) / 2.0;
    MulCancel(offset + extent / 2.0, 0.5, long);
  }

  /** (width / height) * (height / width) == 1: a full-height crop of width height / width is square. */
  lemma ReciprocalRatio(width: real, height: real)
    requires width > 0.0 && height > 0.0
    ensures 1.0 == (width / height) * (height / width)
  {
    ProductOfQuotients(width / height, height / width, width, height);
  }

  /** a * height == width and b * width == height give a * b == 1. */
  lemma ProductOfQuotients(a: real, b: real, width: real, height: real)
    requires width > 0.0 && height > 0.0 && a * height == width && b * width == height
    ensures a * b == 1.0
  {
    assert (a * b) * (height * width) == (a * height) * (b * width);
    MulCancel(a * b, 1.0, height * width);
  }

  // ---------------------------------------------------------------- list bookkeeping

  /** The sequence without its element k. */
  function RemoveAt<T>(s: seq<T>, k: nat): (r: seq<T>)
    requires k < |s|
    ensures |r| == |s| - 1
    ensures forall j :: 0 <= j < k ==> r[j] == s[j]
    ensures forall j :: k <= j < |r| ==> r[j] == s[j + 1]
    ensures multiset(r) + multiset{s[k]} == multiset(s)
  {
    assert s == s[..k] + [s[k]] + s[k + 1..];
    s[..k] + s[k + 1..]
  }

  /** Where Array.prototype.splice starts: a negative start counts from the end, clamped to [0, length]. */
  function SpliceStart(length: nat, start: int): (k: nat)
    ensures k <= length
    ensures 0 <= start <= length ==> k == start
    ensures start > length ==> k == length
    ensures start < 0 && 0 <= length + start ==> k == length + start
    ensures length + start < 0 ==> k == 0
  {
    if start < 0 then (if length + start < 0 then 0 else length + start)
    else if start > length then length
    else start
  }

  /** `copy.splice(start, 1)` on a copy of s: remove the element at the splice start, if there is one. */
  function SpliceOne<T>(s: seq<T>, start: int): (r: seq<T>)
    ensures s == [] ==> r == []
    ensures 0 <= start < |s| ==> r == RemoveAt(s, start)
    ensures start >= |s| ==> r == s
    ensures s != [] && start < 0 ==> r == RemoveAt(s, SpliceStart(|s|, start))
  {
    var k := SpliceStart(|s|, start);
    if k < |s| then RemoveAt(s, k) else s
  }

  /**
   * Object spread `{...base, ...over}` for CropValues: each field of `over` that
   * is present replaces the field of `base`.
   */
  datatype CropFields = CropFields(x: Option<real>, y: Option<real>, width: Option<real>,
                                   height: Option<real>, ratio: Option<real>)

  /** The own properties of a CropValues object: all five are present. */
  function Fields(c: CropValues): CropFields
  {
    CropFields(Some(c.x), Some(c.y), Some(c.width), Some(c.height), Some(c.ratio))
  }

  function Pick(base: real, over: Option<real>): real
  {
    match over
    case Some(v) => v
    case None => base
  }

  function Spread(base: CropValues, over: CropFields): (r: CropValues)
    ensures over == CropFields(None, None, None, None, None) ==> r == base
    ensures over.x.Some? && over.y.Some? && over.width.Some? && over.height.Some? && over.ratio.Some? ==>
      r == CropValues(over.x.value, over.y.value, over.width.value, over.height.value, over.ratio.value)
  {
    CropValues(Pick(base.x, over.x), Pick(base.y, over.y), Pick(base.width, over.width),
               Pick(base.height, over.height), Pick(base.ratio, over.ratio))
  }

  /** Spreading a complete CropValues replaces every field: the merge is the new crop. */
  lemma SpreadOfComplete(base: CropValues, c: CropValues)
    ensures Spread(base, Fields(c)) == c
  {
  }

  /** The entries after setCropPosition(index, c): entry index gets crop c, every other entry is untouched. */
  function WithCrop(entries: seq<ImageDataWithCrop>, index: nat, c: CropValues): (r: seq<ImageDataWithCrop>)
    requires index < |entries|
    ensures |r| == |entries|
    ensures r[index] == entries[index].(cropPosition := c)
    ensures forall j :: 0 <= j < |r| && j != index ==> r[j] == entries[j]
  {
    var entry := entries[index];
    SpreadOfComplete(entry.cropPosition, c);
    entries[index := entry.(cropPosition := Spread(entry.cropPosition, Fields(c)))]
  }

  /** The hook's two lists; null is None. */
  class ImageDropperState {
    var images: Option<seq<ImageData>>
    var compressedImages: Option<seq<ImageDataWithCrop>>

    constructor ()
      ensures images == None && compressedImages == None
    {
      images := None;
      compressedImages := None;
    }

    /** handleDelete(index): splice both lists; nothing happens unless both are non-null. */
    method HandleDelete(index: int)
      modifies this
      ensures old(images).Some? && old(compressedImages).Some? ==>
        && images == Some(SpliceOne(old(images).value, index))
        && compressedImages == Some(SpliceOne(old(compressedImages).value, index))
      ensures old(images).None? || old(compressedImages).None? ==>
        images == old(images) && compressedImages == old(compressedImages)
    {
      if images.Some? && compressedImages.Some? {
        var newImages := images.value;
        var newCompressedImages := compressedImages.value;
        newImages := SpliceOne(newImages, index);
        newCompressedImages := SpliceOne(newCompressedImages, index);
        images := Some(newImages);
        compressedImages := Some(newCompressedImages);
      }
    }

    /** clear(): both lists back to null. */
    method Clear()
      modifies this
      ensures images == None && compressedImages == None
    {
      images := None;
      compressedImages := None;
    }

    /** setCropPosition(index, c): replace entry index's crop; nothing happens while the list is null. */
    method SetCropPosition(index: int, cropLocation: CropValues)
      requires compressedImages.Some? ==> 0 <= index < |compressedImages.value|
      modifies this`compressedImages
      ensures old(compressedImages).None? ==> compressedImages == None
      ensures old(compressedImages).Some? ==>
        compressedImages == Some(WithCrop(old(compressedImages).value, index, cropLocation))
    {
      if compressedImages.Some? {
        var newCompressedImages := compressedImages.value;
        var entry := newCompressedImages[index];
        var newCrop := Spread(entry.cropPosition, Fields(cropLocation));
        newCompressedImages := newCompressedImages[index := entry.(cropPosition := newCrop)];
        compressedImages := Some(newCompressedImages);
      }
    }
  }
}
