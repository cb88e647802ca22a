/** Device-independent bitmaps on the Windows clipboard: the pixel loops that unpack a
    DIB into an image and pack an image into a DIB
    (internal/platform/windows/clipboard.go). */
module Dib {
  import opened Wire
  import opened LittleEndian

  const MIN_HEADER := 40
  const BI_RGB := 0
  const BI_BITFIELDS := 3
  const TWO63 := 0x8000_0000_0000_0000

  /** The largest buffer the runtime hands out; asking for more stops the program. */
  const ALLOC_LIMIT := 0x1_0000_0000_0000

  datatype Pixel = Pixel(r: byte, g: byte, b: byte, a: byte)

  datatype Error =
    | HeaderTooSmall
    | BadHeaderSize
    | BadDimensions
    | BadCompression
    | BadDepth
    | Truncated
    | HugeImage
    | EmptyImage

  // ----- machine words -----

  function Int64(n: nat): int {
    if n < TWO63 then n
    else if n % TWO64 < TWO63 then n % TWO64
    else n % TWO64 - TWO64
  }

  // ----- layout of a bitmap -----

  datatype Layout = Layout(w: nat, h: nat, topDown: bool, depth: nat, offset: nat) {
    predicate Valid() {
      w > 0 && h > 0 && (depth == 3 || depth == 4)
    }

    /** Bytes per row, rounded up to a multiple of four. */
    function Stride(): (n: nat)
      requires Valid()
      ensures w * depth <= n <= 4 * w
    {
      (w * (8 * depth) + 31) / 32 * 4
    }

    /** The first byte past the pixel rows. */
    function End(): (n: nat)
      requires Valid()
      ensures n >= offset
    {
      offset + Stride() * h
    }

    function SourceRow(y: nat): (row: nat)
      requires y < h
      ensures row < h
    {
      if topDown then y else h - 1 - y
    }

    /** Where the bytes of pixel (x, y) start. They lie between offset and End(). */
    function Start(x: nat, y: nat): (i: nat)
      requires Valid() && x < w && y < h
      ensures offset <= i && i + depth <= End()
    {
      var row := SourceRow(y);
      InRow(row, h, Stride(), x * depth, depth);
      offset + row * Stride() + x * depth
    }
  }

  lemma InRow(row: nat, h: nat, stride: nat, at: nat, n: nat)
    requires row < h && at + n <= stride
    ensures row * stride + at + n <= stride * h
  {
    assert (row + 1) * stride <= h * stride;
  }

  /** The layout a header announces. */
  function HeaderOf(raw: seq<byte>): Layout
    requires |raw| >= MIN_HEADER
    requires Int32(Le32(raw, 4)) > 0
  {
    var height := Int32(Le32(raw, 8));
    Layout(Int32(Le32(raw, 4)), if height < 0 then -height else height, height < 0,
           Le16(raw, 14) / 8, Le32(raw, 0))
  }

  lemma RowsApart(row: nat, other: nat, stride: nat, end: nat, at: nat)
    requires row < other && end <= stride
    ensures row * stride + end <= other * stride + at
  {
    assert (row + 1) * stride <= other * stride;
  }

  lemma ColumnsApart(x: nat, i: nat, depth: nat)
    requires x < i
    ensures x * depth + depth <= i * depth
  {
    assert (x + 1) * depth <= i * depth;
  }

  /** Different pixels take different bytes. */
  lemma StartsApart(l: Layout, x: nat, y: nat, i: nat, j: nat)
    requires l.Valid() && x < l.w && y < l.h && i < l.w && j < l.h && (x, y) != (i, j)
    ensures l.Start(x, y) + l.depth <= l.Start(i, j) || l.Start(i, j) + l.depth <= l.Start(x, y)
  {
    var row, other := l.SourceRow(y), l.SourceRow(j);
    if row == other {
      if x < i { ColumnsApart(x, i, l.depth); } else { ColumnsApart(i, x, l.depth); }
    } else if row < other {
      ColumnsApart(x, l.w, l.depth);
      RowsApart(row, other, l.Stride(), x * l.depth + l.depth, i * l.depth);
    } else {
      ColumnsApart(i, l.w, l.depth);
      RowsApart(other, row, l.Stride(), i * l.depth + l.depth, x * l.depth);
    }
  }

  lemma NextMultiple(k: nat, n: nat)
    ensures (k + 1) * n == k * n + n
  {}

  /** Rows follow each other down the picture or up it; pixels follow each other along a row. */
  lemma RowOrder(l: Layout, x: nat, y: nat)
    requires l.Valid() && x < l.w && y < l.h
    ensures l.Start(0, if l.topDown then 0 else l.h - 1) == l.offset
    ensures y + 1 < l.h && l.topDown ==> l.Start(x, y + 1) == l.Start(x, y) + l.Stride()
    ensures y + 1 < l.h && !l.topDown ==> l.Start(x, y) == l.Start(x, y + 1) + l.Stride()
    ensures x + 1 < l.w ==> l.Start(x + 1, y) == l.Start(x, y) + l.depth
  {
    var row := l.SourceRow(y);
    NextMultiple(row, l.Stride());
    if row > 0 { NextMultiple(row - 1, l.Stride()); }
    NextMultiple(x, l.depth);
  }

  /** The header checks, in the order the code makes them. The size check multiplies in
      64-bit integers, which wrap around. */
  function ReadLayout(raw: seq<byte>): (r: Result<Layout, Error>)
    ensures r.Ok? ==> r.value.Valid() && r.value.offset >= MIN_HEADER && r.value.End() <= |raw|
  {
    if |raw| < MIN_HEADER then Err(HeaderTooSmall)
    else if Le32(raw, 0) < MIN_HEADER || Le32(raw, 0) > |raw| then Err(BadHeaderSize)
    else if Int32(Le32(raw, 4)) <= 0 || Int32(Le32(raw, 8)) == 0 then Err(BadDimensions)
    else if Le32(raw, 16) != BI_RGB && Le32(raw, 16) != BI_BITFIELDS then Err(BadCompression)
    else if Le16(raw, 14) != 24 && Le16(raw, 14) != 32 then Err(BadDepth)
    else
      var l := HeaderOf(raw);
      if Int64(l.End()) > |raw| then Err(Truncated)
      else if 4 * (l.w * l.h) > ALLOC_LIMIT then Err(HugeImage)
      else
        AllocatedDoesNotWrap(l);
        Ok(l)
  }

  /** An image that can be allocated is too small for the size check to wrap. */
  lemma AllocatedDoesNotWrap(l: Layout)
    requires l.Valid() && l.offset < TWO32 && 4 * (l.w * l.h) <= ALLOC_LIMIT
    ensures Int64(l.End()) == l.End()
  {
    Product(l.Stride(), 4 * l.w, l.h, l.h);
    Regroup(4, l.w, l.h);
  }

  lemma PresentIsAllocatable(l: Layout)
    requires l.Valid() && l.End() < ALLOC_LIMIT / 2
    ensures 4 * (l.w * l.h) <= ALLOC_LIMIT
  {
    Product(3 * l.w, l.Stride(), l.h, l.h);
    Regroup(3, l.w, l.h);
  }

  lemma SmallDoesNotWrap(l: Layout)
    requires l.Valid() && l.offset < TWO32 && l.w < 0x1000_0000 && l.h < 0x1000_0000
    ensures l.End() < TWO63
  {
    Product(l.Stride(), 4 * 0x1000_0000, l.h, 0x1000_0000);
  }

  /** Every check before the size check passes. */
  predicate HeaderPasses(raw: seq<byte>) {
    && |raw| >= MIN_HEADER
    && MIN_HEADER <= Le32(raw, 0) <= |raw|
    && Int32(Le32(raw, 4)) > 0 && Int32(Le32(raw, 8)) != 0
    && (Le32(raw, 16) == BI_RGB || Le32(raw, 16) == BI_BITFIELDS)
    && (Le16(raw, 14) == 24 || Le16(raw, 14) == 32)
  }

  lemma AfterHeader(raw: seq<byte>)
    ensures ReadLayout(raw) == Err(HugeImage) <==>
      HeaderPasses(raw) && Int64(HeaderOf(raw).End()) <= |raw| && 4 * (HeaderOf(raw).w * HeaderOf(raw).h) > ALLOC_LIMIT
  {
  }

  /** On a buffer of less than 2^47 bytes the program stops on the allocation exactly when
      the header passes and the size check wraps to something the buffer seems to hold. */
  lemma HugeImageIff(raw: seq<byte>)
    requires |raw| < ALLOC_LIMIT / 2
    ensures ReadLayout(raw) == Err(HugeImage) <==>
      HeaderPasses(raw) && HeaderOf(raw).End() >= TWO63 && Int64(HeaderOf(raw).End()) <= |raw|
  {
    AfterHeader(raw);
    if HeaderPasses(raw) {
      var l := HeaderOf(raw);
      if l.End() < TWO63 {
        if l.End() <= |raw| { PresentIsAllocatable(l); }
      } else if 4 * (l.w * l.h) <= ALLOC_LIMIT {
        AllocatedDoesNotWrap(l);
      }
    }
  }

  /** Which takes a dimension of 2^28 or more. */
  lemma HugeOnlyAfterWrap(raw: seq<byte>)
    requires |raw| < ALLOC_LIMIT / 2 && ReadLayout(raw) == Err(HugeImage)
    ensures HeaderOf(raw).w >= 0x1000_0000 || HeaderOf(raw).h >= 0x1000_0000
  {
    HugeImageIff(raw);
    var l := HeaderOf(raw);
    if l.w < 0x1000_0000 && l.h < 0x1000_0000 {
      SmallDoesNotWrap(l);
    }
  }

  /** The bytes of a bare header for 2^31 - 1 columns and, top-down, 2^31 rows of 32-bit pixels. */
  function HugeByte(i: nat): byte {
    match i
    case 0 => 40
    case 4 => 255
    case 5 => 255
    case 6 => 255
    case 7 => 127
    case 11 => 128
    case 12 => 1
    case 14 => 32
    case _ => 0
  }

  const HUGE: seq<byte> := seq(MIN_HEADER, i requires 0 <= i < MIN_HEADER => HugeByte(i))

  const HUGE_LAYOUT := Layout(0x7fff_ffff, 0x8000_0000, true, 4, MIN_HEADER)

  lemma HugeHeader()
    ensures |HUGE| == MIN_HEADER && HeaderPasses(HUGE) && HeaderOf(HUGE) == HUGE_LAYOUT
  {
    assert HUGE[0] == 40 && HUGE[1] == HUGE[2] == HUGE[3] == 0;
    assert HUGE[4] == HUGE[5] == HUGE[6] == 255 && HUGE[7] == 127;
    assert HUGE[8] == HUGE[9] == HUGE[10] == 0 && HUGE[11] == 128;
    assert HUGE[14] == 32 && HUGE[15] == HUGE[16] == HUGE[17] == HUGE[18] == HUGE[19] == 0;
    assert Le32(HUGE, 4) == 0x7fff_ffff && Le32(HUGE, 8) == 0x8000_0000;
  }

  lemma HugeWraps()
    ensures Int64(HUGE_LAYOUT.End()) < 0
  {
    assert HUGE_LAYOUT.Stride() == 0x2_0000_0000 - 4;
    assert HUGE_LAYOUT.End() == TWO64 - 0x2_0000_0000 + MIN_HEADER;
  }

  /** Forty bytes are enough: 2^64 - 2^33 pixel bytes wrap to a negative size. */
  lemma FortyBytesAreHuge()
    ensures |HUGE| == MIN_HEADER && ReadLayout(HUGE) == Err(HugeImage)
  {
    HugeHeader();
    HugeWraps();
    AfterHeader(HUGE);
  }

  lemma Regroup(a: nat, b: nat, c: nat)
    ensures (a * b) * c == a * (b * c)
  {}

  lemma Product(a: nat, b: nat, c: nat, d: nat)
    requires a <= b && c <= d
    ensures a * c <= b * d
  {
    assert a * c <= b * c;
    assert b * c <= b * d;
  }

  /** Blue, green, red, and alpha if there are four bytes. */
  function Bgra(raw: seq<byte>, at: nat, depth: nat): Pixel
    requires depth == 3 || depth == 4
    requires at + depth <= |raw|
  {
    Pixel(raw[at + 2], raw[at + 1], raw[at], if depth == 4 then raw[at + 3] else 255)
  }

  function PixelIn(raw: seq<byte>, l: Layout, x: nat, y: nat): Pixel
    requires l.Valid() && l.End() <= |raw| && x < l.w && y < l.h
  {
    Bgra(raw, l.Start(x, y), l.depth)
  }

  // ----- images -----

  /** Row-major red, green, blue, alpha bytes. */
  class Nrgba {
    const w: nat
    const h: nat
    const pix: array<byte>

    ghost predicate Valid() {
      pix.Length == 4 * (w * h)
    }

    constructor (w: nat, h: nat)
      ensures this.w == w && this.h == h && Valid() && fresh(pix)
    {
      this.w, this.h := w, h;
      pix := new byte[4 * (w * h)](_ => 0);
    }

    function Offset(x: nat, y: nat): (i: nat)
      requires Valid() && x < w && y < h
      ensures i % 4 == 0 && i + 4 <= pix.Length
    {
      InRow(y, h, w, x, 1);
      4 * (y * w + x)
    }

    lemma OffsetsApart(x: nat, y: nat, i: nat, j: nat)
      requires Valid() && x < w && y < h && i < w && j < h && (x, y) != (i, j)
      ensures Offset(x, y) + 4 <= Offset(i, j) || Offset(i, j) + 4 <= Offset(x, y)
    {
      if y < j {
        InRow(y, j, w, x, 1);
      } else if j < y {
        InRow(j, y, w, i, 1);
      }
    }

    function At(x: nat, y: nat): Pixel
      requires Valid() && x < w && y < h
      reads pix
    {
      var i := Offset(x, y);
      Pixel(pix[i], pix[i + 1], pix[i + 2], pix[i + 3])
    }

    method Set(x: nat, y: nat, p: Pixel)
      requires Valid() && x < w && y < h
      modifies pix
      ensures At(x, y) == p
      ensures forall i, j | 0 <= i < w && 0 <= j < h && (i, j) != (x, y) :: At(i, j) == old(At(i, j))
    {
      var k := Offset(x, y);
      pix[k], pix[k + 1], pix[k + 2], pix[k + 3] := p.r, p.g, p.b, p.a;
      forall i, j | 0 <= i < w && 0 <= j < h && (i, j) != (x, y) ensures At(i, j) == old(At(i, j)) {
        OffsetsApart(x, y, i, j);
      }
    }

    method MakeOpaque()
      requires Valid()
      modifies pix
      ensures forall i, j | 0 <= i < w && 0 <= j < h :: At(i, j) == old(At(i, j)).(a := 255)
    {
      FillAlpha(pix);
      forall i, j | 0 <= i < w && 0 <= j < h ensures At(i, j) == old(At(i, j)).(a := 255) {
        var k := Offset(i, j);
        assert pix[k] == old(pix[k]) && pix[k + 1] == old(pix[k + 1]) && pix[k + 2] == old(pix[k + 2]);
      }
    }
  }

  /** Sets every fourth byte. */
  method FillAlpha(pix: array<byte>)
    modifies pix
    ensures forall k | 0 <= k < pix.Length :: pix[k] == if k % 4 == 3 then 255 else old(pix[k])
  {
    var i := 3;
    while i < pix.Length
      invariant 3 <= i && i % 4 == 3
      invariant forall k | 0 <= k < pix.Length :: pix[k] == if k < i && k % 4 == 3 then 255 else old(pix[k])
    {
      pix[i] := 255;
      i := i + 4;
    }
  }

  ghost predicate HasAlpha(img: Nrgba)
    requires img.Valid()
    reads img.pix
  {
    exists x, y :: 0 <= x < img.w && 0 <= y < img.h && img.At(x, y).a != 0
  }

  ghost predicate BitmapHasAlpha(raw: seq<byte>, l: Layout)
    requires l.Valid() && l.End() <= |raw|
  {
    exists x, y :: 0 <= x < l.w && 0 <= y < l.h && PixelIn(raw, l, x, y).a != 0
  }

  function Opaque(p: Pixel): Pixel { p.(a := 255) }

  /** What unpacking promises of the image: the size in the header and, pixel by pixel,
      the bitmap's colours; a bitmap whose alpha bytes are all zero counts as opaque. */
  ghost predicate Depicts(img: Nrgba, raw: seq<byte>, l: Layout)
    requires img.Valid() && l.Valid() && l.End() <= |raw|
    reads img.pix
  {
    && img.w == l.w && img.h == l.h
    && forall x, y | 0 <= x < l.w && 0 <= y < l.h ::
         img.At(x, y) == if BitmapHasAlpha(raw, l) then PixelIn(raw, l, x, y) else Opaque(PixelIn(raw, l, x, y))
  }

  /** The pixel loops of dibToPNG. */
  method Unpack(raw: seq<byte>) returns (r: Result<Nrgba, Error>)
    ensures r.Ok? <==> ReadLayout(raw).Ok?
    ensures r.Err? ==> ReadLayout(raw) == Err(r.error)
    ensures r.Ok? ==> r.value.Valid() && Depicts(r.value, raw, ReadLayout(raw).value)
  {
    var layout := ReadLayout(raw);
    if layout.Err? {
      return Err(layout.error);
    }
    var l := layout.value;
    var img := new Nrgba(l.w, l.h);
    var anyAlpha := l.depth != 4;
    var y := 0;
    while y < l.h
      invariant 0 <= y <= l.h
      invariant forall i, j | 0 <= i < l.w && 0 <= j < y :: img.At(i, j) == PixelIn(raw, l, i, j)
      invariant !anyAlpha ==> l.depth == 4 && forall i, j | 0 <= i < l.w && 0 <= j < y :: PixelIn(raw, l, i, j).a == 0
      invariant anyAlpha ==> l.depth == 3 || BitmapHasAlpha(raw, l)
    {
      anyAlpha := UnpackRow(raw, l, img, y, anyAlpha);
      y := y + 1;
    }
    if !anyAlpha {
      img.MakeOpaque();
    } else if l.depth == 3 {
      assert PixelIn(raw, l, 0, 0).a == 255;
    }
    r := Ok(img);
  }

  method UnpackRow(raw: seq<byte>, l: Layout, img: Nrgba, y: nat, seen: bool) returns (anyAlpha: bool)
    requires l.Valid() && l.End() <= |raw| && y < l.h
    requires img.Valid() && img.w == l.w && img.h == l.h
    modifies img.pix
    ensures forall i | 0 <= i < l.w :: img.At(i, y) == PixelIn(raw, l, i, y)
    ensures forall i, j | 0 <= i < l.w && 0 <= j < l.h && j != y :: img.At(i, j) == old(img.At(i, j))
    ensures anyAlpha <==> seen || (l.depth == 4 && exists i :: 0 <= i < l.w && PixelIn(raw, l, i, y).a != 0)
  {
    anyAlpha := seen;
    var row := l.offset + l.SourceRow(y) * l.Stride();
    var x := 0;
    while x < l.w
      invariant 0 <= x <= l.w
      invariant forall i | 0 <= i < x :: img.At(i, y) == PixelIn(raw, l, i, y)
      invariant forall i, j | 0 <= i < l.w && 0 <= j < l.h && j != y :: img.At(i, j) == old(img.At(i, j))
      invariant anyAlpha <==> seen || (l.depth == 4 && exists i :: 0 <= i < x && PixelIn(raw, l, i, y).a != 0)
    {
      var i := row + x * l.depth;
      assert i == l.Start(x, y);
      var b, g, r, a := raw[i], raw[i + 1], raw[i + 2], 255 as byte;
      if l.depth == 4 {
        a := raw[i + 3];
        if a != 0 { anyAlpha := true; }
      }
      img.Set(x, y, Pixel(r, g, b, a));
      x := x + 1;
    }
  }

  // ----- packing -----

  function PackedLayout(w: nat, h: nat): Layout {
    Layout(w, h, false, 4, MIN_HEADER)
  }

  /** A header for l and as many bytes as l has. */
  ghost predicate IsPackedFile(raw: seq<byte>, l: Layout) {
    && l == PackedLayout(l.w, l.h) && l.Valid()
    && |raw| == l.End()
    && IsHeader(raw[..MIN_HEADER], l.w, l.h, |raw| - MIN_HEADER)
  }

  /** A bitmap packed from img: bottom-up rows of four bytes a pixel after the header. */
  ghost predicate IsPackingOf(raw: seq<byte>, img: Nrgba)
    requires img.Valid() && img.w > 0 && img.h > 0
    reads img.pix
  {
    var l := PackedLayout(img.w, img.h);
    && IsPackedFile(raw, l)
    && forall x, y | 0 <= x < img.w && 0 <= y < img.h :: PixelIn(raw, l, x, y) == img.At(x, y)
  }

  /** Dimensions and the number of pixel bytes are written modulo 2^32. */
  ghost predicate IsHeader(hdr: seq<byte>, w: nat, h: nat, size: nat) {
    && |hdr| == MIN_HEADER
    && Le32(hdr, 0) == MIN_HEADER
    && Le32(hdr, 4) == w % TWO32
    && Le32(hdr, 8) == h % TWO32
    && Le16(hdr, 12) == 1
    && Le16(hdr, 14) == 32
    && Le32(hdr, 16) == BI_RGB
    && Le32(hdr, 20) == size % TWO32
    && forall i | 24 <= i < MIN_HEADER :: hdr[i] == 0
  }

  method PackHeader(w: nat, h: nat, size: nat) returns (hdr: array<byte>)
    ensures fresh(hdr) && IsHeader(hdr[..], w, h, size)
  {
    hdr := new byte[MIN_HEADER](_ => 0);
    PackSize(hdr, w % TWO32, h % TWO32);
    ghost var sized := hdr[..];
    PackFormat(hdr, size % TWO32);
    SameWord(sized, hdr[..], 0);
    SameWord(sized, hdr[..], 4);
    SameWord(sized, hdr[..], 8);
  }

  lemma SameWord(a: seq<byte>, b: seq<byte>, at: nat)
    requires at + 4 <= |a| && at + 4 <= |b| && a[at] == b[at] && a[at + 1] == b[at + 1]
    requires a[at + 2] == b[at + 2] && a[at + 3] == b[at + 3]
    ensures Le32(a, at) == Le32(b, at)
  {
  }

  method PackSize(hdr: array<byte>, w: nat, h: nat)
    requires hdr.Length == MIN_HEADER && w < TWO32 && h < TWO32
    modifies hdr
    ensures Le32(hdr[..], 0) == MIN_HEADER && Le32(hdr[..], 4) == w && Le32(hdr[..], 8) == h
    ensures forall i | 12 <= i < hdr.Length :: hdr[i] == old(hdr[i])
  {
    PutUint32(hdr, 0, MIN_HEADER);
    PutUint32(hdr, 4, w);
    PutUint32(hdr, 8, h);
  }

  method PackFormat(hdr: array<byte>, size: nat)
    requires hdr.Length == MIN_HEADER && size < TWO32
    modifies hdr
    ensures Le16(hdr[..], 12) == 1 && Le16(hdr[..], 14) == 32
    ensures Le32(hdr[..], 16) == BI_RGB && Le32(hdr[..], 20) == size
    ensures forall i | 0 <= i < hdr.Length && !(12 <= i < 24) :: hdr[i] == old(hdr[i])
  {
    PutUint16(hdr, 12, 1);
    PutUint16(hdr, 14, 32);
    PutUint32(hdr, 16, BI_RGB);
    PutUint32(hdr, 20, size);
  }

  /** The pixel loops of pngToDIB. */
  method Pack(img: Nrgba) returns (r: Result<seq<byte>, Error>)
    requires img.Valid()
    ensures r.Ok? <==> img.w > 0 && img.h > 0
    ensures r.Err? ==> r.error == EmptyImage
    ensures r.Ok? ==> IsPackingOf(r.value, img)
  {
    if img.w <= 0 || img.h <= 0 {
      return Err(EmptyImage);
    }
    ghost var l := PixelLayout(img.w, img.h);
    var pixels := new byte[img.w * 4 * img.h](_ => 0);
    var y := 0;
    while y < img.h
      invariant 0 <= y <= img.h
      invariant forall i, j | 0 <= i < l.w && 0 <= j < y :: PixelIn(pixels[..], l, i, j) == img.At(i, j)
    {
      PackRow(pixels, img, y);
      y := y + 1;
    }
    var hdr := PackHeader(img.w, img.h, pixels.Length);
    r := Ok(hdr[..] + pixels[..]);
    Prepended(hdr[..], pixels[..], img);
  }

  lemma Prepended(hdr: seq<byte>, pixels: seq<byte>, img: Nrgba)
    requires img.Valid() && img.w > 0 && img.h > 0
    requires IsHeader(hdr, img.w, img.h, |pixels|) && |pixels| == PixelLayout(img.w, img.h).End()
    requires forall x, y | 0 <= x < img.w && 0 <= y < img.h ::
      PixelIn(pixels, PixelLayout(img.w, img.h), x, y) == img.At(x, y)
    ensures IsPackingOf(hdr + pixels, img)
  {
    var l := PixelLayout(img.w, img.h);
    assert (hdr + pixels)[..MIN_HEADER] == hdr;
    forall x, y | 0 <= x < img.w && 0 <= y < img.h
      ensures PixelIn(hdr + pixels, PackedLayout(img.w, img.h), x, y) == img.At(x, y)
    {
      assert PixelIn(pixels, l, x, y) == img.At(x, y);
      assert PackedLayout(img.w, img.h).Start(x, y) == MIN_HEADER + l.Start(x, y);
    }
  }

  /** The pixel rows alone. */
  function PixelLayout(w: nat, h: nat): Layout {
    PackedLayout(w, h).(offset := 0)
  }

  lemma PackedStart(w: nat, h: nat, x: nat, y: nat)
    requires w > 0 && x < w && y < h
    ensures PixelLayout(w, h).Start(x, y) == (h - 1 - y) * (w * 4) + x * 4
  {
    assert PixelLayout(w, h).Stride() == w * 4;
  }

  method PackRow(pixels: array<byte>, img: Nrgba, y: nat)
    requires img.Valid() && pixels != img.pix && y < img.h
    requires img.w > 0 && pixels.Length == PixelLayout(img.w, img.h).End()
    modifies pixels
    ensures var l := PixelLayout(img.w, img.h);
      && (forall i | 0 <= i < l.w :: PixelIn(pixels[..], l, i, y) == img.At(i, y))
      && (forall i, j | 0 <= i < l.w && 0 <= j < l.h && j != y ::
            PixelIn(pixels[..], l, i, j) == old(PixelIn(pixels[..], l, i, j)))
  {
    ghost var l := PixelLayout(img.w, img.h);
    var row := (img.h - 1 - y) * (img.w * 4);
    var x := 0;
    while x < img.w
      invariant 0 <= x <= img.w
      invariant forall i | 0 <= i < x :: PixelIn(pixels[..], l, i, y) == img.At(i, y)
      invariant forall i, j | 0 <= i < l.w && 0 <= j < l.h && j != y ::
        PixelIn(pixels[..], l, i, j) == old(PixelIn(pixels[..], l, i, j))
    {
      var c := img.At(x, y);
      PackedStart(img.w, img.h, x, y);
      PutPixel(pixels, l, x, y, row + x * 4, c);
      x := x + 1;
    }
  }

  method PutPixel(pixels: array<byte>, ghost l: Layout, ghost x: nat, ghost y: nat, i: nat, c: Pixel)
    requires l.Valid() && l.depth == 4 && pixels.Length == l.End() && x < l.w && y < l.h && i == l.Start(x, y)
    modifies pixels
    ensures PixelIn(pixels[..], l, x, y) == c
    ensures forall u, v | 0 <= u < l.w && 0 <= v < l.h && (u, v) != (x, y) ::
      PixelIn(pixels[..], l, u, v) == old(PixelIn(pixels[..], l, u, v))
  {
    pixels[i], pixels[i + 1], pixels[i + 2], pixels[i + 3] := c.b, c.g, c.r, c.a;
    forall u, v | 0 <= u < l.w && 0 <= v < l.h && (u, v) != (x, y)
      ensures PixelIn(pixels[..], l, u, v) == old(PixelIn(pixels[..], l, u, v))
    {
      StartsApart(l, x, y, u, v);
    }
  }

  // ----- round trip -----

  lemma FieldIsExact(n: nat)
    ensures Int32(n % TWO32) == n <==> n < TWO31
  {}

  lemma HeaderFields(raw: seq<byte>, w: nat, h: nat, size: nat)
    requires |raw| >= MIN_HEADER && IsHeader(raw[..MIN_HEADER], w, h, size)
    ensures Le32(raw, 0) == MIN_HEADER && Le32(raw, 16) == BI_RGB && Le16(raw, 14) == 32
    ensures Le32(raw, 4) == w % TWO32 && Le32(raw, 8) == h % TWO32
  {
    FieldInHeader(raw, 0);
    FieldInHeader(raw, 4);
    FieldInHeader(raw, 8);
    FieldInHeader(raw, 14);
    FieldInHeader(raw, 16);
  }

  lemma FieldInHeader(raw: seq<byte>, at: nat)
    requires |raw| >= MIN_HEADER && at + 4 <= MIN_HEADER
    ensures Le16(raw, at) == Le16(raw[..MIN_HEADER], at) && Le32(raw, at) == Le32(raw[..MIN_HEADER], at)
  {}

  lemma HeaderAccepted(raw: seq<byte>, l: Layout, end: nat)
    requires |raw| >= MIN_HEADER && MIN_HEADER <= Le32(raw, 0) <= |raw|
    requires Int32(Le32(raw, 4)) > 0 && Int32(Le32(raw, 8)) != 0
    requires Le32(raw, 16) == BI_RGB && Le16(raw, 14) == 32
    requires HeaderOf(raw) == l && Int64(l.End()) == end <= |raw| && 4 * (l.w * l.h) <= ALLOC_LIMIT
    ensures ReadLayout(raw) == Ok(l)
  {
  }

  lemma SmallHeader(raw: seq<byte>, w: nat, h: nat, size: nat)
    requires |raw| >= MIN_HEADER && IsHeader(raw[..MIN_HEADER], w, h, size)
    requires 0 < w < TWO31 && 0 < h < TWO31
    ensures Le32(raw, 0) == MIN_HEADER && Le32(raw, 16) == BI_RGB && Le16(raw, 14) == 32
    ensures Int32(Le32(raw, 4)) == w && Int32(Le32(raw, 8)) == h
    ensures HeaderOf(raw) == PackedLayout(w, h)
  {
    HeaderFields(raw, w, h, size);
  }

  lemma DimensionsSurvive(raw: seq<byte>, l: Layout)
    requires IsPackedFile(raw, l)
    requires 4 * (l.w * l.h) <= ALLOC_LIMIT && l.w < TWO31 && l.h < TWO31
    ensures ReadLayout(raw) == Ok(l)
  {
    AllocatedDoesNotWrap(l);
    SmallHeader(raw, l.w, l.h, |raw| - MIN_HEADER);
    HeaderAccepted(raw, l, |raw|);
  }

  lemma LargeDimensionsAreLost(raw: seq<byte>, w: nat, h: nat, size: nat)
    requires |raw| >= MIN_HEADER && IsHeader(raw[..MIN_HEADER], w, h, size)
    requires w >= TWO31 || h >= TWO31
    ensures ReadLayout(raw) != Ok(PackedLayout(w, h))
  {
    HeaderFields(raw, w, h, size);
    FieldIsExact(w);
    FieldIsExact(h);
    assert ReadLayout(raw).Ok? ==> ReadLayout(raw).value == HeaderOf(raw);
  }

  /** A packed bitmap reads back with its own dimensions, bottom-up, exactly when both
      fit a signed 32-bit field. */
  lemma DimensionsSurviveIff(raw: seq<byte>, l: Layout)
    requires IsPackedFile(raw, l) && 4 * (l.w * l.h) <= ALLOC_LIMIT
    ensures ReadLayout(raw) == Ok(l) <==> l.w < TWO31 && l.h < TWO31
  {
    if l.w < TWO31 && l.h < TWO31 {
      DimensionsSurvive(raw, l);
    } else {
      LargeDimensionsAreLost(raw, l.w, l.h, |raw| - MIN_HEADER);
    }
  }

  /** How the bytes written with layout l are read: 2^31 rows look like a negative, hence
      top-down, height. */
  function ReadBack(l: Layout): Layout { l.(topDown := l.h == TWO31) }

  lemma TallestReadsTopDown(raw: seq<byte>, l: Layout)
    requires IsPackedFile(raw, l)
    requires 4 * (l.w * l.h) <= ALLOC_LIMIT && l.w < TWO31 && l.h == TWO31
    ensures ReadLayout(raw) == Ok(ReadBack(l))
  {
    AllocatedDoesNotWrap(l);
    HeaderFields(raw, l.w, l.h, |raw| - MIN_HEADER);
    assert Int32(Le32(raw, 4)) == l.w && Int32(Le32(raw, 8)) == -TWO31;
    assert ReadBack(l).End() == l.End();
    HeaderAccepted(raw, ReadBack(l), |raw|);
  }

  lemma ReadsBack(raw: seq<byte>, l: Layout)
    requires IsPackedFile(raw, l)
    requires 4 * (l.w * l.h) <= ALLOC_LIMIT && l.w < TWO31 && l.h <= TWO31
    ensures ReadLayout(raw) == Ok(ReadBack(l))
  {
    if l.h < TWO31 { DimensionsSurvive(raw, l); } else { TallestReadsTopDown(raw, l); }
  }

  /** The row that comes back as row y: all of them in place, except upside down in an
      image of 2^31 rows. */
  function RowBack(h: nat, y: nat): (row: nat)
    requires y < h
    ensures row < h
  {
    if h == TWO31 then h - 1 - y else y
  }

  lemma PixelBack(raw: seq<byte>, img: Nrgba, x: nat, y: nat)
    requires img.Valid() && img.w > 0 && img.h > 0 && IsPackingOf(raw, img) && x < img.w && y < img.h
    ensures var l := ReadBack(PackedLayout(img.w, img.h));
      l.Valid() && l.End() <= |raw| && PixelIn(raw, l, x, y) == img.At(x, RowBack(img.h, y))
  {
    var l, p := PackedLayout(img.w, img.h), ReadBack(PackedLayout(img.w, img.h));
    assert p.End() == l.End() && p.SourceRow(y) == l.SourceRow(RowBack(img.h, y));
    assert PixelIn(raw, p, x, y) == PixelIn(raw, l, x, RowBack(img.h, y));
  }

  lemma AlphaBack(raw: seq<byte>, img: Nrgba)
    requires img.Valid() && img.w > 0 && img.h > 0 && IsPackingOf(raw, img)
    ensures var l := ReadBack(PackedLayout(img.w, img.h));
      l.Valid() && l.End() <= |raw| && (BitmapHasAlpha(raw, l) <==> HasAlpha(img))
  {
    var l := ReadBack(PackedLayout(img.w, img.h));
    PixelBack(raw, img, 0, 0);
    if HasAlpha(img) {
      var x, y :| 0 <= x < img.w && 0 <= y < img.h && img.At(x, y).a != 0;
      PixelBack(raw, img, x, RowBack(img.h, y));
      assert PixelIn(raw, l, x, RowBack(img.h, y)).a != 0;
    }
    if BitmapHasAlpha(raw, l) {
      var x, y :| 0 <= x < l.w && 0 <= y < l.h && PixelIn(raw, l, x, y).a != 0;
      PixelBack(raw, img, x, y);
      assert img.At(x, RowBack(img.h, y)).a != 0;
    }
  }

  /** Unpacking a packed image gives every pixel back if some alpha is non-zero, and
      otherwise the same colours made opaque. */
  lemma PackThenUnpack(raw: seq<byte>, img: Nrgba, back: Nrgba)
    requires img.Valid() && img.w > 0 && img.h > 0 && IsPackingOf(raw, img)
    requires 4 * (img.w * img.h) <= ALLOC_LIMIT && img.w < TWO31 && img.h <= TWO31
    requires back.Valid() && ReadLayout(raw).Ok? && Depicts(back, raw, ReadLayout(raw).value)
    ensures back.w == img.w && back.h == img.h
    ensures forall x, y | 0 <= x < img.w && 0 <= y < img.h ::
      back.At(x, y) == var p := img.At(x, RowBack(img.h, y)); if HasAlpha(img) then p else Opaque(p)
  {
    ReadsBack(raw, PackedLayout(img.w, img.h));
    AlphaBack(raw, img);
    forall x, y | 0 <= x < img.w && 0 <= y < img.h
      ensures back.At(x, y) == var p := img.At(x, RowBack(img.h, y)); if HasAlpha(img) then p else Opaque(p)
    {
      PixelBack(raw, img, x, y);
    }
  }

  /** An unpacked image always has some alpha. */
  lemma UnpackedHasAlpha(raw: seq<byte>, img: Nrgba)
    requires img.Valid() && ReadLayout(raw).Ok? && Depicts(img, raw, ReadLayout(raw).value)
    ensures HasAlpha(img)
  {
    var l := ReadLayout(raw).value;
    if BitmapHasAlpha(raw, l) {
      var x, y :| 0 <= x < l.w && 0 <= y < l.h && PixelIn(raw, l, x, y).a != 0;
      assert img.At(x, y).a != 0;
    } else {
      assert img.At(0, 0).a != 0;
    }
  }

  lemma AcceptedFits(raw: seq<byte>)
    requires ReadLayout(raw).Ok?
    ensures var l := ReadLayout(raw).value;
      0 < l.w < TWO31 && 0 < l.h <= TWO31 && 4 * (l.w * l.h) <= ALLOC_LIMIT
  {
  }

  /** So packing an unpacked image and unpacking it again changes nothing: one trip through
      the clipboard settles the picture. Only one of 2^31 rows is turned upside down. */
  lemma SecondTrip(raw: seq<byte>, img: Nrgba, again: seq<byte>, back: Nrgba)
    requires img.Valid() && ReadLayout(raw).Ok? && Depicts(img, raw, ReadLayout(raw).value)
    requires img.w > 0 && img.h > 0 && IsPackingOf(again, img)
    requires back.Valid() && ReadLayout(again).Ok? && Depicts(back, again, ReadLayout(again).value)
    ensures back.w == img.w && back.h == img.h
    ensures forall x, y | 0 <= x < img.w && 0 <= y < img.h :: back.At(x, y) == img.At(x, RowBack(img.h, y))
  {
    AcceptedFits(raw);
    UnpackedHasAlpha(raw, img);
    PackThenUnpack(again, img, back);
  }
}
