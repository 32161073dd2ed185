/** Picture size and cropping in SPS.parse against section 7.4.2.1.1 of H.264. */
module SpsGeometry {
  import opened Bytes
  import opened BitStreams
  import opened Golombs

  const MAX_INT32 := 0x7FFF_FFFF

  /** The syntax elements from pic_width_in_mbs_minus1 to frame_crop_bottom_offset. */
  datatype Elements = Elements(width: nat, height: nat, frameMbsOnly: nat, cropping: nat,
                               left: nat, right: nat, top: nat, bottom: nat)

  datatype Error = SizeOverflow | InvalidCrop

  // ---- the standard, on unbounded integers ---------------------------------

  function CropUnitX(chroma: nat): (u: nat)
    ensures u > 0
  {
    if chroma == 1 || chroma == 2 then 2 else 1
  }

  function CropUnitY(chroma: nat, frameMbsOnly: nat): (u: nat)
    ensures u > 0
  {
    var fields := if frameMbsOnly == 1 then 1 else 2;
    if chroma == 1 then 2 * fields else fields
  }

  function FullWidth(e: Elements): nat {
    16 * (e.width + 1)
  }

  function FullHeight(e: Elements): nat {
    if e.frameMbsOnly == 1 then 16 * (e.height + 1) else 2 * 16 * (e.height + 1)
  }

  /** Two opposite offsets in luma samples. */
  function Cropped(unit: nat, a: nat, b: nat): nat {
    unit * (a + b)
  }

  function CroppedWidth(e: Elements, chroma: nat): int {
    FullWidth(e) - Cropped(CropUnitX(chroma), e.left, e.right)
  }

  function CroppedHeight(e: Elements, chroma: nat): int {
    FullHeight(e) - Cropped(CropUnitY(chroma, e.frameMbsOnly), e.top, e.bottom)
  }

  /** The area check. Its product is taken modulo 2^32. */
  predicate SmallArea(w: nat, h: nat) {
    Uint32((w + 128) * (h + 128)) < MAX_INT32 / 8
  }

  predicate SizeAccepted(e: Elements) {
    && e.width + 1 < MAX_INT32 / 16 && e.height + 1 < MAX_INT32 / 16
    && SmallArea(16 * (e.width + 1), 16 * (e.height + 1))
  }

  /** Two opposite offsets leave something of the full extent. */
  predicate CropFits(a: nat, b: nat, unit: nat, full: nat)
    requires unit > 0
  {
    a <= MAX_INT32 / 4 / unit && b <= MAX_INT32 / 4 / unit && Cropped(unit, a, b) < full
  }

  predicate CropAccepted(e: Elements, chroma: nat) {
    && CropFits(e.left, e.right, CropUnitX(chroma), FullWidth(e))
    && CropFits(e.top, e.bottom, CropUnitY(chroma, e.frameMbsOnly), FullHeight(e))
  }

  // ---- the elements in the bit stream --------------------------------------

  /** What four calls of ReadUE return. */
  function OffsetsAt(s: seq<byte>, l: nat): (o: (nat, nat, nat, nat))
    requires s != []
    ensures o.0 < TWO32 && o.1 < TWO32 && o.2 < TWO32 && o.3 < TWO32
  {
    var r := UeEnd(s, l);
    var t := UeEnd(s, r);
    var b := UeEnd(s, t);
    (UeValue(s, l), UeValue(s, r), UeValue(s, t), UeValue(s, b))
  }

  /** What the readers return one after another from a position on. */
  function ElementsAt(s: seq<byte>, i: nat): Elements
    requires s != []
  {
    var j := UeEnd(s, i);
    var k := UeEnd(s, j);
    var frameMbsOnly := BitsValue(s, k, 1);
    var m := CroppingFlagAt(k, frameMbsOnly);
    var cropping := BitsValue(s, m, 1);
    var (left, right, top, bottom) := if cropping == 0 then (0, 0, 0, 0) else OffsetsAt(s, m + 1);
    Elements(UeValue(s, i), UeValue(s, j), frameMbsOnly, cropping, left, right, top, bottom)
  }

  /** mb_adaptive_frame_field_flag is only there without frame_mbs_only_flag; then comes
      direct_8x8_inference_flag. */
  function CroppingFlagAt(k: nat, frameMbsOnly: nat): nat {
    k + (if frameMbsOnly == 0 then 2 else 1) + 1
  }

  /** The codes of the elements follow one another in the buffer. */
  predicate Written(s: seq<byte>, i: nat, e: Elements) {
    var j := i + CodeLength(e.width);
    var k := j + CodeLength(e.height);
    var m := if e.frameMbsOnly == 1 then k + 2 else k + 3;
    && CodedAt(s, i, e.width) && CodedAt(s, j, e.height)
    && BitsValue(s, k, 1) == e.frameMbsOnly && BitsValue(s, m, 1) == e.cropping
    && (if e.cropping == 0 then e.left == e.right == e.top == e.bottom == 0 else CropWritten(s, m + 1, e))
  }

  predicate CropWritten(s: seq<byte>, l: nat, e: Elements) {
    var r := l + CodeLength(e.left);
    var t := r + CodeLength(e.right);
    var b := t + CodeLength(e.top);
    CodedAt(s, l, e.left) && CodedAt(s, r, e.right) && CodedAt(s, t, e.top) && CodedAt(s, b, e.bottom)
  }

  /** Every code number is in the range ReadUE is right for. */
  predicate Readable(e: Elements) {
    && e.width <= 0x3FF_FFFE && e.height <= 0x3FF_FFFE
    && e.left <= 0x3FF_FFFE && e.right <= 0x3FF_FFFE && e.top <= 0x3FF_FFFE && e.bottom <= 0x3FF_FFFE
  }

  lemma {:induction false} ReadsCrop(s: seq<byte>, l: nat, e: Elements)
    requires s != [] && CropWritten(s, l, e) && Readable(e)
    ensures OffsetsAt(s, l) == (e.left, e.right, e.top, e.bottom)
  {
    hide UeValue, UeEnd, CodedAt, CodeLength;
    var r := l + CodeLength(e.left);
    var t := r + CodeLength(e.right);
    UeInverse(s, l, e.left);
    UeInverse(s, r, e.right);
    UeInverse(s, t, e.top);
    UeInverse(s, t + CodeLength(e.top), e.bottom);
  }

  /** The readers recover written elements. */
  lemma {:induction false} ReadsElements(s: seq<byte>, i: nat, e: Elements)
    requires s != [] && Written(s, i, e) && Readable(e)
    ensures ElementsAt(s, i) == e
  {
    hide UeValue, UeEnd, CodedAt, CodeLength, CropWritten, BitsValue, OffsetsAt;
    var j := i + CodeLength(e.width);
    var k := j + CodeLength(e.height);
    UeInverse(s, i, e.width);
    UeInverse(s, j, e.height);
    FirstBit(s, k);
    var m := if e.frameMbsOnly == 1 then k + 2 else k + 3;
    FirstBit(s, m);
    if e.cropping != 0 {
      ReadsCrop(s, m + 1, e);
    }
  }

  // ---- SPS.parse -----------------------------------------------------------

  class Sps {
    const chromaFormatIdc: nat
    var picWidth: nat
    var picHeight: nat
    var frameMbsOnlyFlag: nat
    var frameCroppingFlag: nat
    var cropLeft: nat
    var cropRight: nat
    var cropTop: nat
    var cropBottom: nat
    var codecWidth: nat
    var codecHeight: nat

    constructor (chromaFormatIdc: nat)
      ensures this.chromaFormatIdc == chromaFormatIdc
    {
      this.chromaFormatIdc := chromaFormatIdc;
    }

    static predicate CheckImageSize(w: nat, h: nat) {
      w != 0 && h != 0 && Uint32(Uint32(w + 128) * Uint32(h + 128)) < MAX_INT32 / 8
    }

    /** Check the offsets and turn them into luma samples. Every product and sum is on uint32. */
    method ApplyCrop(left: nat, right: nat, top: nat, bottom: nat) returns (ok: bool)
      requires left < TWO32 && right < TWO32 && top < TWO32 && bottom < TWO32 && frameMbsOnlyFlag <= 1
      modifies this`cropLeft, this`cropRight, this`cropTop, this`cropBottom
      ensures var unitX, unitY := CropUnitX(chromaFormatIdc), CropUnitY(chromaFormatIdc, frameMbsOnlyFlag);
              && (ok <==> CropFits(left, right, unitX, codecWidth) && CropFits(top, bottom, unitY, codecHeight))
              && (ok ==> cropLeft + cropRight == Cropped(unitX, left, right)
                            && cropTop + cropBottom == Cropped(unitY, top, bottom))
    {
      var vsub := if chromaFormatIdc == 1 then 1 else 0;
      var hsub := if chromaFormatIdc == 1 || chromaFormatIdc == 2 then 1 else 0;
      var stepX := Shl(1, hsub);
      var stepY := Shl(2 - frameMbsOnlyFlag, vsub);
      Steps(chromaFormatIdc, frameMbsOnlyFlag);
      hide Shl, Uint32, CropFits, CropUnitX, CropUnitY, Cropped;
      var maxX, maxY := MAX_INT32 / 4 / stepX, MAX_INT32 / 4 / stepY;
      CropArithmetic(left, right, stepX, codecWidth);
      CropArithmetic(top, bottom, stepY, codecHeight);
      if left > maxX || right > maxX || top > maxY || bottom > maxY
         || Uint32(Uint32(left + right) * stepX) >= codecWidth
         || Uint32(Uint32(top + bottom) * stepY) >= codecHeight {
        return false;
      }
      cropLeft, cropRight := Uint32(left * stepX), Uint32(right * stepX);
      cropTop, cropBottom := Uint32(top * stepY), Uint32(bottom * stepY);
      return true;
    }

    /** The crop offsets in the bit stream. */
    method ReadCrop(gb: Golomb) returns (left: nat, right: nat, top: nat, bottom: nat)
      requires gb.stream.Valid() && gb.stream.buffer != [] && gb.stream.index >= 0
      modifies gb.stream`index
      ensures (left, right, top, bottom) == OffsetsAt(gb.stream.buffer, old(gb.stream.index))
    {
      hide UeValue, UeEnd;
      left := gb.ReadUE();
      right := gb.ReadUE();
      top := gb.ReadUE();
      bottom := gb.ReadUE();
    }

    /** Width and height, checked. */
    method ReadSize(gb: Golomb) returns (ok: bool)
      requires gb.stream.Valid() && gb.stream.buffer != [] && gb.stream.index >= 0
      modifies gb.stream`index, this`picWidth, this`picHeight
      ensures var s, i := gb.stream.buffer, old(gb.stream.index);
              var e := ElementsAt(s, i);
              && gb.stream.index == UeEnd(s, UeEnd(s, i))
              && (ok <==> SizeAccepted(e))
              && (ok ==> picWidth == e.width + 1 < MAX_INT32 / 16 && picHeight == e.height + 1 < MAX_INT32 / 16)
    {
      hide UeValue, UeEnd, BitsValue, OffsetsAt, SmallArea, Sps.CheckImageSize, Uint32;
      var w := gb.ReadUE();
      var h := gb.ReadUE();
      picWidth, picHeight := Uint32(w + 1), Uint32(h + 1);
      Incremented(w);
      Incremented(h);
      if picWidth >= MAX_INT32 / 16 || picHeight >= MAX_INT32 / 16 {
        return false;
      }
      AreaCheck(picWidth, picHeight);
      ok := CheckImageSize(Uint32(16 * picWidth), Uint32(16 * picHeight));
    }

    /** The one-bit fields between the size and the offsets, and the full size in samples. */
    method ReadFlags(gb: Golomb)
      requires gb.stream.Valid() && gb.stream.index >= 0
      requires picWidth < MAX_INT32 / 16 && picHeight < MAX_INT32 / 16
      modifies gb.stream`index, this`frameMbsOnlyFlag, this`frameCroppingFlag, this`codecWidth, this`codecHeight
      ensures var s, k := gb.stream.buffer, old(gb.stream.index);
              && frameMbsOnlyFlag == BitsValue(s, k, 1) <= 1
              && gb.stream.index == CroppingFlagAt(k, frameMbsOnlyFlag) + 1
              && frameCroppingFlag == BitsValue(s, CroppingFlagAt(k, frameMbsOnlyFlag), 1)
      ensures codecWidth == 16 * picWidth
      ensures codecHeight == if frameMbsOnlyFlag == 1 then 16 * picHeight else 2 * 16 * picHeight
    {
      hide Shown, BitsValue, Uint32;
      FlagBits(gb.stream.buffer, gb.stream.index);
      frameMbsOnlyFlag := gb.stream.ReadBits(1);
      if frameMbsOnlyFlag == 0 {
        var mbAdaptiveFrameFieldFlag := gb.stream.ReadBits(1);
      }
      codecWidth := Uint32(16 * picWidth);
      codecHeight := Uint32(Uint32(16 * picHeight) * (2 - frameMbsOnlyFlag));
      FullSize(picWidth, picHeight, frameMbsOnlyFlag);
      var direct8x8InferenceFlag := gb.stream.ReadBits(1);
      frameCroppingFlag := gb.stream.ReadBits(1);
    }

    /** Subtract the offsets, on uint32. */
    method Crop()
      requires cropLeft + cropRight <= codecWidth < TWO32 && cropTop + cropBottom <= codecHeight < TWO32
      modifies this`codecWidth, this`codecHeight
      ensures codecWidth == old(codecWidth) - cropLeft - cropRight
      ensures codecHeight == old(codecHeight) - cropTop - cropBottom
    {
      codecWidth := Uint32(codecWidth - Uint32(cropLeft + cropRight));
      codecHeight := Uint32(codecHeight - Uint32(cropTop + cropBottom));
    }

    /** From the picture size to the cropped size. */
    method ParseGeometry(gb: Golomb) returns (err: Option<Error>)
      requires gb.stream.Valid() && gb.stream.buffer != [] && gb.stream.index >= 0
      modifies this, gb.stream`index
      ensures var e := ElementsAt(gb.stream.buffer, old(gb.stream.index));
              && (err == Some(SizeOverflow) <==> !SizeAccepted(e))
              && (err == Some(InvalidCrop) <==> SizeAccepted(e) && e.cropping != 0 && !CropAccepted(e, chromaFormatIdc))
              && (err == None ==> codecWidth == CroppedWidth(e, chromaFormatIdc) > 0
                                  && codecHeight == CroppedHeight(e, chromaFormatIdc) > 0)
    {
      hide UeValue, UeEnd, Shown, BitsValue, OffsetsAt, SizeAccepted, Cropped, CropFits, Uint32, CropUnitX, CropUnitY;
      ghost var s, i := gb.stream.buffer, gb.stream.index;
      ghost var e := ElementsAt(s, i);
      var ok := ReadSize(gb);
      if !ok {
        return Some(SizeOverflow);
      }
      ReadFlags(gb);
      assert frameMbsOnlyFlag == e.frameMbsOnly && frameCroppingFlag == e.cropping;
      assert codecWidth == FullWidth(e) && codecHeight == FullHeight(e);
      NotCropped(CropUnitX(chromaFormatIdc));
      NotCropped(CropUnitY(chromaFormatIdc, e.frameMbsOnly));
      FitsMeans(e.left, e.right, CropUnitX(chromaFormatIdc), codecWidth);
      FitsMeans(e.top, e.bottom, CropUnitY(chromaFormatIdc, e.frameMbsOnly), codecHeight);
      if frameCroppingFlag != 0 {
        var left, right, top, bottom := ReadCrop(gb);
        ok := ApplyCrop(left, right, top, bottom);
        if !ok {
          return Some(InvalidCrop);
        }
      } else {
        cropLeft, cropRight, cropTop, cropBottom := 0, 0, 0, 0;
      }
      Crop();
      return None;
    }
  }

  lemma {:induction false} FlagBits(s: seq<byte>, k: nat)
    ensures BitsValue(s, k, 1) <= 1
  {
    FirstBit(s, k);
  }

  lemma {:induction false} Steps(chroma: nat, frameMbsOnly: nat)
    requires frameMbsOnly <= 1
    ensures Shl(1, if chroma == 1 || chroma == 2 then 1 else 0) == CropUnitX(chroma)
    ensures Shl(2 - frameMbsOnly, if chroma == 1 then 1 else 0) == CropUnitY(chroma, frameMbsOnly)
    ensures CropUnitX(chroma) in {1, 2} && CropUnitY(chroma, frameMbsOnly) in {1, 2, 4}
  {
    PowValues();
  }

  /** Sums and products of int32 halves stay below 2^32. */
  lemma {:induction false} NoWrap(a: nat, b: nat, unit: nat)
    requires unit in {1, 2, 4} && a <= MAX_INT32 / 4 / unit && b <= MAX_INT32 / 4 / unit
    ensures Uint32(Uint32(a + b) * unit) == Cropped(unit, a, b)
    ensures Uint32(a * unit) + Uint32(b * unit) == Cropped(unit, a, b)
  {
    if unit == 1 {
      Small3(a, b, a + b);
    } else if unit == 2 {
      Small3(2 * a, 2 * b, 2 * (a + b));
      Small3(a, b, a + b);
    } else {
      Small3(4 * a, 4 * b, 4 * (a + b));
      Small3(a, b, a + b);
    }
    hide Uint32;
  }

  lemma {:induction false} Small3(a: nat, b: nat, c: nat)
    requires a < TWO32 && b < TWO32 && c < TWO32
    ensures Uint32(a) == a && Uint32(b) == b && Uint32(c) == c
  {
  }

  /** Within the bounds nothing wraps. */
  lemma {:induction false} CropArithmetic(a: nat, b: nat, unit: nat, full: nat)
    requires unit in {1, 2, 4}
    ensures CropFits(a, b, unit, full)
            <==> a <= MAX_INT32 / 4 / unit && b <= MAX_INT32 / 4 / unit && Uint32(Uint32(a + b) * unit) < full
    ensures a <= MAX_INT32 / 4 / unit && b <= MAX_INT32 / 4 / unit
            ==> Uint32(a * unit) + Uint32(b * unit) == Cropped(unit, a, b)
  {
    hide Uint32, Cropped;
    if a <= MAX_INT32 / 4 / unit && b <= MAX_INT32 / 4 / unit {
      NoWrap(a, b, unit);
    }
  }

  lemma {:induction false} Incremented(n: nat)
    requires n < TWO32
    ensures Uint32(n + 1) == if n + 1 == TWO32 then 0 else n + 1
  {
  }

  lemma {:induction false} AreaCheck(picWidth: nat, picHeight: nat)
    requires picWidth < MAX_INT32 / 16 && picHeight < MAX_INT32 / 16
    ensures Sps.CheckImageSize(Uint32(16 * picWidth), Uint32(16 * picHeight))
            <==> picWidth > 0 && picHeight > 0 && SmallArea(16 * picWidth, 16 * picHeight)
  {
    var w, h := 16 * picWidth, 16 * picHeight;
    assert Uint32(w) == w && Uint32(h) == h && Uint32(w + 128) == w + 128 && Uint32(h + 128) == h + 128;
    hide Uint32;
  }

  lemma {:induction false} FullSize(picWidth: nat, picHeight: nat, frameMbsOnly: nat)
    requires picWidth < MAX_INT32 / 16 && picHeight < MAX_INT32 / 16 && frameMbsOnly <= 1
    ensures Uint32(16 * picWidth) == 16 * picWidth
    ensures Uint32(Uint32(16 * picHeight) * (2 - frameMbsOnly))
            == if frameMbsOnly == 1 then 16 * picHeight else 2 * 16 * picHeight
  {
    hide Uint32;
    Small(16 * picWidth);
    Small(16 * picHeight);
    Small(2 * 16 * picHeight);
    assert frameMbsOnly == 1 ==> 16 * picHeight * (2 - frameMbsOnly) == 16 * picHeight;
    assert frameMbsOnly == 0 ==> 16 * picHeight * (2 - frameMbsOnly) == 2 * 16 * picHeight;
  }

  /** For elements written in the buffer, an accepted size is positive and is the one the standard
      prescribes. */
  lemma {:induction false} WrittenGeometry(s: seq<byte>, i: nat, e: Elements, chroma: nat)
    requires s != [] && Written(s, i, e) && Readable(e)
    requires e.cropping != 0 ==> CropAccepted(e, chroma)
    ensures ElementsAt(s, i) == e
    ensures 0 < CroppedWidth(e, chroma) <= FullWidth(e) && 0 < CroppedHeight(e, chroma) <= FullHeight(e)
  {
    hide ElementsAt, CodeLength, CodedAt, CropWritten, BitsValue, Cropped, CropFits, CropUnitX, CropUnitY;
    ReadsElements(s, i, e);
    NotCropped(CropUnitX(chroma));
    NotCropped(CropUnitY(chroma, e.frameMbsOnly));
    var x, y := CropUnitX(chroma), CropUnitY(chroma, e.frameMbsOnly);
    FitsMeans(e.left, e.right, x, FullWidth(e));
    FitsMeans(e.top, e.bottom, y, FullHeight(e));
  }

  lemma {:induction false} FitsMeans(a: nat, b: nat, unit: nat, full: nat)
    requires unit > 0
    ensures CropFits(a, b, unit, full) ==> Cropped(unit, a, b) < full
  {
  }

  lemma {:induction false} NotCropped(unit: nat)
    ensures Cropped(unit, 0, 0) == 0
  {
  }

  /** 1920 by 1080, as frames and as fields: macroblock rows that are too many are cropped away. */
  lemma {:induction false} FullHD(e: Elements)
    requires e.width == 119 && e.left == e.right == e.top == 0
    ensures e.frameMbsOnly == 1 && e.height == 67 && e.bottom == 4
            ==> CroppedWidth(e, 1) == 1920 && CroppedHeight(e, 1) == 1080
    ensures e.frameMbsOnly == 0 && e.height == 33 && e.bottom == 2
            ==> CroppedWidth(e, 1) == 1920 && CroppedHeight(e, 1) == 1080
    ensures e.frameMbsOnly == 1 && e.height == 67 && e.bottom == 8
            ==> CroppedHeight(e, 2) == CroppedHeight(e, 3) == 1080
  {
  }

  function PaddedArea(e: Elements): nat {
    (16 * (e.width + 1) + 128) * (16 * (e.height + 1) + 128)
  }

  /** The product wraps, so the check bounds no area: an accepted picture exceeds the limit if and only
      if its padded area does not fit 32 bits. */
  lemma {:induction false} NoAreaBound(e: Elements)
    requires SizeAccepted(e)
    ensures PaddedArea(e) >= 0xFFF_FFFF <==> PaddedArea(e) >= TWO32
  {
    var area := PaddedArea(e);
    assert Uint32(area) < MAX_INT32 / 8;
    assert area < TWO32 ==> Uint32(area) == area;
    hide Uint32, PaddedArea;
  }

  /** As far as the padded area fits 32 bits, the size check is the area check. */
  lemma {:induction false} SizeExact(e: Elements)
    requires PaddedArea(e) < TWO32
    ensures SizeAccepted(e) <==> PaddedArea(e) < 0xFFF_FFFF
  {
    AreaBounds(16 * (e.width + 1) + 128, 16 * (e.height + 1) + 128);
    var area := PaddedArea(e);
    assert Uint32(area) == area;
    assert SmallArea(16 * (e.width + 1), 16 * (e.height + 1)) <==> Uint32(area) < MAX_INT32 / 8;
    hide Uint32, PaddedArea, SmallArea;
  }

  lemma {:induction false} AreaBounds(w: nat, h: nat)
    requires w > 0 && h > 0
    ensures w <= w * h && h <= w * h
  {
  }

  /** In a picture no wider or higher than 2^29 - 1 samples, the crop check only asks that something is
      left. */
  lemma {:induction false} CropExact(a: nat, b: nat, unit: nat, full: nat)
    requires unit in {1, 2, 4} && full <= 0x1FFF_FFFF
    ensures CropFits(a, b, unit, full) <==> unit * (a + b) < full
  {
  }

  /** 65408 by 65408 samples are such a picture. */
  lemma {:induction false} HugeAccepted()
    ensures var e := Elements(4087, 4087, 1, 0, 0, 0, 0, 0); SizeAccepted(e) && PaddedArea(e) == TWO32
  {
  }
}
