/** Bitmaps on the clipboard byte by byte: where the format puts what, in arithmetic on
    offsets alone. */
module DibBytes {
  import opened Wire
  import opened LittleEndian
  import opened Dib

  function Half(raw: seq<byte>, at: nat): nat
    requires at + 2 <= |raw|
  {
    raw[at] as int + 256 * raw[at + 1] as int
  }

  function Word(raw: seq<byte>, at: nat): nat
    requires at + 4 <= |raw|
  {
    raw[at] as int + 256 * raw[at + 1] as int + 65536 * raw[at + 2] as int + 16777216 * raw[at + 3] as int
  }

  function Signed(n: nat): int { if n < 2147483648 then n else n - 4294967296 }

  function Magnitude(n: int): nat { if n < 0 then -n else n }

  /** Bytes of a row of w pixels: padded to a multiple of four. */
  function RowBytes(w: nat, depth: nat): nat { (w * depth + 3) / 4 * 4 }

  lemma RowsArePadded(w: nat, depth: nat)
    ensures var n := RowBytes(w, depth); n % 4 == 0 && w * depth <= n < w * depth + 4
  {
  }

  lemma StrideIsPadded(l: Layout)
    requires l.Valid()
    ensures l.Stride() == RowBytes(l.w, l.depth)
    ensures l.Stride() % 4 == 0 && l.w * l.depth <= l.Stride() < l.w * l.depth + 4
  {
    RowsArePadded(l.w, l.depth);
    assert l.depth == 3 ==> l.w * (8 * l.depth) == 24 * l.w && l.w * l.depth == 3 * l.w;
    assert l.depth == 4 ==> l.w * (8 * l.depth) == 32 * l.w && l.w * l.depth == 4 * l.w;
  }

  // ---- Which bitmaps are accepted ----

  /** The first header check that fails. */
  function Objection(raw: seq<byte>): Option<Error> {
    if |raw| < 40 then Some(HeaderTooSmall)
    else if !(40 <= Word(raw, 0) <= |raw|) then Some(BadHeaderSize)
    else if Signed(Word(raw, 4)) <= 0 || Word(raw, 8) == 0 then Some(BadDimensions)
    else if Word(raw, 16) != 0 && Word(raw, 16) != 3 then Some(BadCompression)
    else if Half(raw, 14) != 24 && Half(raw, 14) != 32 then Some(BadDepth)
    else None
  }

  /** The bytes a header without objection asks for: header and padded rows. */
  function Needs(raw: seq<byte>): nat
    requires |raw| >= 40
  {
    Word(raw, 0) + RowBytes(Word(raw, 4), Half(raw, 14) / 8) * Magnitude(Signed(Word(raw, 8)))
  }

  lemma WordsAgree(raw: seq<byte>, at: nat)
    requires at + 4 <= |raw|
    ensures Le16(raw, at) == Half(raw, at) && Le32(raw, at) == Word(raw, at)
    ensures Int32(Le32(raw, at)) == Signed(Word(raw, at))
  {
  }

  lemma HeaderWords(raw: seq<byte>)
    requires |raw| >= 40
    ensures Le32(raw, 0) == Word(raw, 0) && Le32(raw, 4) == Word(raw, 4) && Le32(raw, 8) == Word(raw, 8)
    ensures Le32(raw, 16) == Word(raw, 16) && Le16(raw, 14) == Half(raw, 14)
    ensures Int32(Le32(raw, 4)) == Signed(Word(raw, 4)) && Int32(Le32(raw, 8)) == Signed(Word(raw, 8))
  {
    WordsAgree(raw, 0);
    WordsAgree(raw, 4);
    WordsAgree(raw, 8);
    WordsAgree(raw, 14);
    WordsAgree(raw, 16);
  }

  /** What a header without objection announces. */
  predicate Announced(raw: seq<byte>, l: Layout)
    requires |raw| >= 40
  {
    && l.w == Word(raw, 4) && l.h == Magnitude(Signed(Word(raw, 8)))
    && l.topDown == (Signed(Word(raw, 8)) < 0)
    && l.depth == Half(raw, 14) / 8 && l.offset == Word(raw, 0)
  }

  lemma NoObjection(raw: seq<byte>)
    ensures Objection(raw).None? <==> HeaderPasses(raw)
    ensures Objection(raw).None? ==>
      var l := HeaderOf(raw); l.Valid() && Announced(raw, l) && l.End() == Needs(raw)
  {
    if |raw| >= 40 {
      HeaderWords(raw);
      if Objection(raw).None? { StrideIsPadded(HeaderOf(raw)); }
    }
  }

  lemma ObjectionStands(raw: seq<byte>)
    ensures Objection(raw).Some? ==> ReadLayout(raw) == Err(Objection(raw).value)
  {
    if |raw| >= 40 { HeaderWords(raw); }
  }

  lemma PresentIsAccepted(raw: seq<byte>)
    requires HeaderPasses(raw) && |raw| < ALLOC_LIMIT / 2
    ensures ReadLayout(raw).Ok? <==> HeaderOf(raw).End() <= |raw|
    ensures ReadLayout(raw).Ok? ==> ReadLayout(raw).value == HeaderOf(raw)
    ensures ReadLayout(raw).Err? ==> ReadLayout(raw).error == Truncated || ReadLayout(raw).error == HugeImage
  {
    var l := HeaderOf(raw);
    if l.End() <= |raw| { PresentIsAllocatable(l); }
  }

  /** On a buffer of less than 2^47 bytes: the first objection to the header is the error; with
      none, the bitmap is accepted exactly when all of its padded rows are there, and else it is
      truncated, unless the size check wraps. */
  lemma AcceptedIff(raw: seq<byte>)
    requires |raw| < 0x8000_0000_0000
    ensures Objection(raw).Some? ==> ReadLayout(raw) == Err(Objection(raw).value)
    ensures Objection(raw).None? ==>
      if Needs(raw) <= |raw| then ReadLayout(raw).Ok?
      else ReadLayout(raw) == Err(Truncated) || ReadLayout(raw) == Err(HugeImage)
    ensures ReadLayout(raw).Ok? ==> Announced(raw, ReadLayout(raw).value)
  {
    ObjectionStands(raw);
    NoObjection(raw);
    if Objection(raw).None? { PresentIsAccepted(raw); }
  }

  // ---- Unpacking ----

  /** Where the bytes of pixel (x, y) begin. */
  function PixelAt(raw: seq<byte>, x: nat, y: nat): int
    requires |raw| >= 40
  {
    var height, depth := Signed(Word(raw, 8)), Half(raw, 14) / 8;
    var row := if height < 0 then y else height - 1 - y;
    Word(raw, 0) + row * RowBytes(Word(raw, 4), depth) + x * depth
  }

  lemma StartIsPixelAt(raw: seq<byte>, l: Layout, x: nat, y: nat)
    requires |raw| >= 40 && l.Valid() && Announced(raw, l) && x < l.w && y < l.h
    ensures l.Start(x, y) == PixelAt(raw, x, y)
  {
    StrideIsPadded(l);
  }

  lemma AcceptedIsAnnounced(raw: seq<byte>)
    requires ReadLayout(raw).Ok?
    ensures |raw| >= 40 && Announced(raw, ReadLayout(raw).value) && ReadLayout(raw).value == HeaderOf(raw)
  {
    NoObjection(raw);
  }

  /** Pixel (x, y) of the image has its colours from three bytes of the bitmap, blue first, and
      its alpha from the fourth if there is one and any such byte is non-zero. */
  ghost predicate PixelFrom(img: Nrgba, raw: seq<byte>, x: nat, y: nat)
    requires img.Valid() && x < img.w && y < img.h && |raw| >= 40
    reads img.pix
  {
    var i, k := PixelAt(raw, x, y), 4 * (y * img.w + x);
    && 40 <= i && i + Half(raw, 14) / 8 <= |raw| && 0 <= k && k + 4 <= img.pix.Length && Half(raw, 14) / 8 >= 3
    && img.pix[k] == raw[i + 2] && img.pix[k + 1] == raw[i + 1] && img.pix[k + 2] == raw[i]
    && img.pix[k + 3] == if Half(raw, 14) == 32 && AnyAlpha(raw, img.w, img.h) then raw[i + 3] else 255
  }

  ghost predicate AnyAlpha(raw: seq<byte>, w: nat, h: nat)
    requires |raw| >= 40
  {
    exists x, y :: 0 <= x < w && 0 <= y < h && AlphaAt(raw, x, y)
  }

  predicate AlphaAt(raw: seq<byte>, x: nat, y: nat)
    requires |raw| >= 40
  {
    var i := PixelAt(raw, x, y); 0 <= i && i + 3 < |raw| && raw[i + 3] != 0
  }

  lemma AnyAlphaIff(raw: seq<byte>)
    requires ReadLayout(raw).Ok? && ReadLayout(raw).value.depth == 4
    ensures |raw| >= 40
    ensures var l := ReadLayout(raw).value; BitmapHasAlpha(raw, l) <==> AnyAlpha(raw, l.w, l.h)
  {
    var l := ReadLayout(raw).value;
    AcceptedIsAnnounced(raw);
    forall x, y | 0 <= x < l.w && 0 <= y < l.h ensures PixelIn(raw, l, x, y).a != 0 <==> AlphaAt(raw, x, y) {
      StartIsPixelAt(raw, l, x, y);
    }
  }

  lemma BitsAreDepth(raw: seq<byte>)
    requires ReadLayout(raw).Ok?
    ensures |raw| >= 40 && (Half(raw, 14) == 32 <==> ReadLayout(raw).value.depth == 4)
    ensures Half(raw, 14) / 8 == ReadLayout(raw).value.depth
  {
    AcceptedIsAnnounced(raw);
    NoObjection(raw);
  }

  lemma OnePixelFrom(raw: seq<byte>, img: Nrgba, x: nat, y: nat)
    requires img.Valid() && ReadLayout(raw).Ok? && Depicts(img, raw, ReadLayout(raw).value)
    requires x < img.w && y < img.h
    ensures |raw| >= 40 && PixelFrom(img, raw, x, y)
  {
    var l := ReadLayout(raw).value;
    AcceptedIsAnnounced(raw);
    BitsAreDepth(raw);
    StartIsPixelAt(raw, l, x, y);
    if l.depth == 4 {
      AnyAlphaIff(raw);
    }
    var p := PixelIn(raw, l, x, y);
    var q := img.At(x, y);
    assert q == if BitmapHasAlpha(raw, l) then p else Opaque(p);
    assert img.Offset(x, y) == 4 * (y * img.w + x);
  }

  /** The image unpacked from an accepted bitmap, byte for byte. */
  lemma UnpackedBytes(raw: seq<byte>, img: Nrgba)
    requires img.Valid() && ReadLayout(raw).Ok? && Depicts(img, raw, ReadLayout(raw).value)
    ensures |raw| >= 40 && img.w == Word(raw, 4) && img.h == Magnitude(Signed(Word(raw, 8)))
    ensures forall x, y | 0 <= x < img.w && 0 <= y < img.h :: PixelFrom(img, raw, x, y)
  {
    AcceptedIsAnnounced(raw);
    forall x, y | 0 <= x < img.w && 0 <= y < img.h ensures PixelFrom(img, raw, x, y) {
      OnePixelFrom(raw, img, x, y);
    }
  }

  // ---- Packing ----

  /** Forty header bytes: sizes, one plane, 32 bits, no compression, the rest zero. */
  predicate PackedHeader(raw: seq<byte>, w: nat, h: nat) {
    && |raw| >= 40
    && Word(raw, 0) == 40 && Word(raw, 4) == w % 4294967296 && Word(raw, 8) == h % 4294967296
    && Half(raw, 12) == 1 && Half(raw, 14) == 32 && Word(raw, 16) == 0
    && Word(raw, 20) == (|raw| - 40) % 4294967296
    && forall i | 24 <= i < 40 :: raw[i] == 0
  }

  lemma HeaderIsPacked(raw: seq<byte>, l: Layout)
    requires IsPackedFile(raw, l)
    ensures PackedHeader(raw, l.w, l.h) && |raw| == 40 + 4 * l.w * l.h
  {
    var hdr := raw[..40];
    assert forall i | 0 <= i < 40 :: hdr[i] == raw[i];
    WordsAgree(hdr, 0);
    WordsAgree(hdr, 4);
    WordsAgree(hdr, 8);
    WordsAgree(hdr, 12);
    WordsAgree(hdr, 14);
    WordsAgree(hdr, 16);
    WordsAgree(hdr, 20);
    assert l.Stride() == 4 * l.w;
  }

  /** Pixel (x, y) takes four bytes, blue first, the picture's last row coming first. */
  ghost predicate PixelTo(raw: seq<byte>, img: Nrgba, x: nat, y: nat)
    requires img.Valid() && x < img.w && y < img.h
    reads img.pix
  {
    var i, k := 40 + (img.h - 1 - y) * (4 * img.w) + 4 * x, 4 * (y * img.w + x);
    && 0 <= i && i + 4 <= |raw| && 0 <= k && k + 4 <= img.pix.Length
    && raw[i] == img.pix[k + 2] && raw[i + 1] == img.pix[k + 1] && raw[i + 2] == img.pix[k] && raw[i + 3] == img.pix[k + 3]
  }

  lemma OnePixelTo(raw: seq<byte>, img: Nrgba, x: nat, y: nat)
    requires img.Valid() && img.w > 0 && img.h > 0 && IsPackingOf(raw, img) && x < img.w && y < img.h
    ensures PixelTo(raw, img, x, y)
  {
    var l := PackedLayout(img.w, img.h);
    assert l.Stride() == 4 * img.w;
    assert l.Start(x, y) == 40 + (img.h - 1 - y) * (4 * img.w) + 4 * x;
    assert img.Offset(x, y) == 4 * (y * img.w + x);
    assert PixelIn(raw, l, x, y) == img.At(x, y);
  }

  /** The bitmap packed from an image, byte for byte. */
  lemma PackedBytes(raw: seq<byte>, img: Nrgba)
    requires img.Valid() && img.w > 0 && img.h > 0 && IsPackingOf(raw, img)
    ensures PackedHeader(raw, img.w, img.h) && |raw| == 40 + 4 * img.w * img.h
    ensures forall x, y | 0 <= x < img.w && 0 <= y < img.h :: PixelTo(raw, img, x, y)
  {
    HeaderIsPacked(raw, PackedLayout(img.w, img.h));
    forall x, y | 0 <= x < img.w && 0 <= y < img.h ensures PixelTo(raw, img, x, y) {
      OnePixelTo(raw, img, x, y);
    }
  }
}
