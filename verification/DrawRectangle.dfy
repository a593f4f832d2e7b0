/** draw_rectangle_c1 to draw_rectangle_c4 of src/utils/image_drawing.c, in one: they differ in the number of
    bytes of a pixel only. */
module DrawRectangle {
  import opened Bytes

  /** A set of pixels; a box is half open. */
  datatype Shape =
    | Box(x0: int, x1: int, y0: int, y1: int)
    | Both(a: Shape, b: Shape)
  {
    predicate Has(x: int, y: int) {
      match this
      case Box(x0, x1, y0, y1) => x0 <= x < x1 && y0 <= y < y1
      case Both(a, b) => a.Has(x, y) || b.Has(x, y)
    }
  }

  /** An image of w by h pixels with c bytes each. */
  datatype Image = Image(w: nat, h: nat, c: nat) {
    predicate Holds(x: int, y: int) { 0 <= x < w && 0 <= y < h }

    predicate HasByte(x: int, y: int, k: nat) { Holds(x, y) && k < c }

    function Size(): nat { w * h * c }

    /** Where byte k of pixel (x, y) is. */
    function Index(x: int, y: int, k: nat): int { w * c * y + x * c + k }
  }

  /** A mixed-radix digit: the place of r within block q of size d stays within n blocks. */
  lemma BlockInside(d: nat, n: nat, q: int, r: int)
    requires 0 <= q < n && 0 <= r < d
    ensures 0 <= d * q && d * q + r < d * n
  {
    assert d * n == d * q + d + d * (n - q - 1);
    ProductPositive(d, n - q - 1);
    ProductPositive(d, q);
  }

  lemma ProductPositive(a: nat, b: nat)
    ensures a * b >= 0
  {
  }

  lemma Commutes(a: int, b: int, c: int)
    ensures a * b * c == a * c * b && a * b == b * a
  {
  }

  lemma IndexInside(image: Image, x: int, y: int, k: nat)
    requires image.HasByte(x, y, k)
    ensures 0 <= image.Index(x, y, k) < image.Size() && 0 <= x * image.c + k < image.w * image.c
  {
    var w, h, c := image.w, image.h, image.c;
    BlockInside(c, w, x, k);
    Commutes(c, x, 1);
    Commutes(c, w, 1);
    BlockInside(w * c, h, y, x * c + k);
    Commutes(w, c, h);
  }

  lemma SameBlock(d: nat, q1: int, r1: int, q2: int, r2: int)
    requires 0 <= r1 < d && 0 <= r2 < d && d * q1 + r1 == d * q2 + r2
    ensures q1 == q2 && r1 == r2
  {
    if q1 < q2 {
      BlockInside(d, q2 - q1, q2 - q1 - 1, d - 1);
    } else if q2 < q1 {
      BlockInside(d, q1 - q2, q1 - q2 - 1, d - 1);
    }
  }

  /** Different bytes of different pixels are in different places. */
  lemma IndexInjective(image: Image, x1: int, y1: int, k1: nat, x2: int, y2: int, k2: nat)
    requires image.HasByte(x1, y1, k1) && image.HasByte(x2, y2, k2)
    requires image.Index(x1, y1, k1) == image.Index(x2, y2, k2)
    ensures x1 == x2 && y1 == y2 && k1 == k2
  {
    IndexInside(image, x1, y1, k1);
    IndexInside(image, x2, y2, k2);
    SameBlock(image.w * image.c, y1, x1 * image.c + k1, y2, x2 * image.c + k2);
    Commutes(x1, image.c, 1);
    Commutes(x2, image.c, 1);
    SameBlock(image.c, x1, k1, x2, k2);
  }

  /** Byte k of the colour in memory; the device is little endian. */
  function Pen(color: nat, k: nat): Byte {
    color / Pow256(k) % 256
  }

  /** The bytes of a colour, the lowest first. */
  lemma PenWrittenOut(b0: Byte, b1: Byte, b2: Byte, b3: Byte)
    ensures var color := b0 + 0x100 * b1 + 0x1_0000 * b2 + 0x100_0000 * b3;
      Pen(color, 0) == b0 && Pen(color, 1) == b1 && Pen(color, 2) == b2 && Pen(color, 3) == b3
  {
    assert Pow256(0) == 1 && Pow256(1) == 0x100 && Pow256(2) == 0x1_0000 && Pow256(3) == 0x100_0000;
    hide Pow256;
    FourBytes(b3, b2, b1, b0);
    assert b0 + 0x100 * b1 + 0x1_0000 * b2 + 0x100_0000 * b3 == 256 * (256 * (256 * b3 + b2) + b1) + b0;
  }

  /** Rows follow each other, in a row the pixels, in a pixel its bytes. */
  lemma PlacesInOrder(image: Image, x: int, y: int, k: nat)
    ensures image.Index(0, 0, 0) == 0 && image.Index(x, y, k + 1) == image.Index(x, y, k) + 1
    ensures image.Index(x + 1, y, k) == image.Index(x, y, k) + image.c
    ensures image.Index(x, y + 1, k) == image.Index(x, y, k) + image.w * image.c
  {
    var row := image.w * image.c;
    assert row * (y + 1) == row * y + row && (x + 1) * image.c == x * image.c + image.c;
  }

  /** Exactly the pixels of the shape that lie in the image have the colour; no other byte has changed. */
  ghost predicate Painted(image: Image, color: nat, before: seq<Byte>, after: seq<Byte>, shape: Shape) {
    && |before| == |after| && image.Size() <= |before|
    && (forall x, y, k: nat | image.HasByte(x, y, k) ::
          ByteIs(image, color, before, after, shape.Has(x, y), x, y, k))
    && (forall i | image.Size() <= i < |before| :: after[i] == before[i])
  }

  ghost predicate ByteIs(image: Image, color: nat, before: seq<Byte>, after: seq<Byte>, inside: bool,
                         x: int, y: int, k: nat)
    requires image.HasByte(x, y, k) && |before| == |after| && image.Size() <= |before|
  {
    IndexInside(image, x, y, k);
    var i := image.Index(x, y, k);
    after[i] == if inside then Pen(color, k) else before[i]
  }

  /** A shape outside the image is painted by doing nothing. */
  lemma PaintedNothing(image: Image, color: nat, before: seq<Byte>, shape: Shape)
    requires image.Size() <= |before|
    requires forall x, y | image.Holds(x, y) :: !shape.Has(x, y)
    ensures Painted(image, color, before, before, shape)
  {
  }

  /** Painting one shape and then another paints the pixels of both. */
  lemma PaintedBoth(image: Image, color: nat, before: seq<Byte>, between: seq<Byte>, after: seq<Byte>,
                    a: Shape, b: Shape, both: Shape)
    requires Painted(image, color, before, between, a) && Painted(image, color, between, after, b)
    requires forall x, y | image.Holds(x, y) :: both.Has(x, y) == (a.Has(x, y) || b.Has(x, y))
    ensures Painted(image, color, before, after, both)
  {
    hide Pen;
    forall x, y, k: nat | image.HasByte(x, y, k)
      ensures ByteIs(image, color, before, after, both.Has(x, y), x, y, k)
    {
      assert ByteIs(image, color, before, between, a.Has(x, y), x, y, k);
      assert ByteIs(image, color, between, after, b.Has(x, y), x, y, k);
    }
  }

  lemma PaintedSame(image: Image, color: nat, before: seq<Byte>, after: seq<Byte>, a: Shape, b: Shape)
    requires Painted(image, color, before, after, a)
    requires forall x, y | image.Holds(x, y) :: a.Has(x, y) == b.Has(x, y)
    ensures Painted(image, color, before, after, b)
  {
    hide Pen, ByteIs;
    forall x, y, k: nat | image.HasByte(x, y, k)
      ensures ByteIs(image, color, before, after, b.Has(x, y), x, y, k)
    {
      assert ByteIs(image, color, before, after, a.Has(x, y), x, y, k);
    }
  }

  method PaintPixel(pixels: array<Byte>, image: Image, color: nat, x: int, y: int)
    requires pixels.Length >= image.Size() && image.Holds(x, y)
    modifies pixels
    ensures Painted(image, color, old(pixels[..]), pixels[..], Box(x, x + 1, y, y + 1))
  {
    var k := 0;
    while k < image.c
      invariant k <= image.c
      invariant forall x', y', k': nat | image.HasByte(x', y', k') ::
        ByteIs(image, color, old(pixels[..]), pixels[..], x' == x && y' == y && k' < k, x', y', k')
      invariant forall i | image.Size() <= i < pixels.Length :: pixels[i] == old(pixels[i])
    {
      IndexInside(image, x, y, k);
      ghost var between := pixels[..];
      pixels[image.Index(x, y, k)] := Pen(color, k);
      forall x', y', k': nat | image.HasByte(x', y', k')
        ensures ByteIs(image, color, old(pixels[..]), pixels[..], x' == x && y' == y && k' < k + 1, x', y', k')
      {
        IndexInside(image, x', y', k');
        assert ByteIs(image, color, old(pixels[..]), between, x' == x && y' == y && k' < k, x', y', k');
        if image.Index(x', y', k') == image.Index(x, y, k) {
          IndexInjective(image, x', y', k', x, y, k);
        }
      }
      k := k + 1;
    }
  }

  /** for (x = x0; x < x1; x++), skipping x < 0 and stopping at x >= w. */
  method PaintRow(pixels: array<Byte>, image: Image, color: nat, x0: int, x1: int, y: int)
    requires pixels.Length >= image.Size() && 0 <= y < image.h
    modifies pixels
    ensures Painted(image, color, old(pixels[..]), pixels[..], Box(x0, x1, y, y + 1))
  {
    hide Painted;
    ghost var before := pixels[..];
    PaintedNothing(image, color, before, Box(x0, x0, y, y + 1));
    var x := x0;
    while x < x1
      invariant x == x0 || x0 <= x <= x1
      invariant Painted(image, color, before, pixels[..], Box(x0, x, y, y + 1))
      decreases x1 - x
    {
      if x >= image.w {
        break;
      }
      ghost var between := pixels[..];
      if x >= 0 {
        PaintPixel(pixels, image, color, x, y);
      } else {
        PaintedNothing(image, color, between, Box(x, x + 1, y, y + 1));
      }
      PaintedBoth(image, color, before, between, pixels[..],
                  Box(x0, x, y, y + 1), Box(x, x + 1, y, y + 1), Box(x0, x + 1, y, y + 1));
      x := x + 1;
    }
    PaintedSame(image, color, before, pixels[..], Box(x0, x, y, y + 1), Box(x0, x1, y, y + 1));
  }

  /** for (y = y0; y < y1; y++) over rows, clipped likewise: the filled rectangle, the top and the bottom. */
  method PaintRows(pixels: array<Byte>, image: Image, color: nat, x0: int, x1: int, y0: int, y1: int)
    requires pixels.Length >= image.Size()
    modifies pixels
    ensures Painted(image, color, old(pixels[..]), pixels[..], Box(x0, x1, y0, y1))
  {
    hide Painted;
    ghost var before := pixels[..];
    PaintedNothing(image, color, before, Box(x0, x1, y0, y0));
    var y := y0;
    while y < y1
      invariant y == y0 || y0 <= y <= y1
      invariant Painted(image, color, before, pixels[..], Box(x0, x1, y0, y))
      decreases y1 - y
    {
      if y >= image.h {
        break;
      }
      ghost var between := pixels[..];
      if y >= 0 {
        PaintRow(pixels, image, color, x0, x1, y);
      } else {
        PaintedNothing(image, color, between, Box(x0, x1, y, y + 1));
      }
      PaintedBoth(image, color, before, between, pixels[..],
                  Box(x0, x1, y0, y), Box(x0, x1, y, y + 1), Box(x0, x1, y0, y + 1));
      y := y + 1;
    }
    PaintedSame(image, color, before, pixels[..], Box(x0, x1, y0, y), Box(x0, x1, y0, y1));
  }

  method PaintColumn(pixels: array<Byte>, image: Image, color: nat, x: int, y0: int, y1: int)
    requires pixels.Length >= image.Size() && 0 <= x < image.w
    modifies pixels
    ensures Painted(image, color, old(pixels[..]), pixels[..], Box(x, x + 1, y0, y1))
  {
    hide Painted;
    ghost var before := pixels[..];
    PaintedNothing(image, color, before, Box(x, x + 1, y0, y0));
    var y := y0;
    while y < y1
      invariant y == y0 || y0 <= y <= y1
      invariant Painted(image, color, before, pixels[..], Box(x, x + 1, y0, y))
      decreases y1 - y
    {
      if y >= image.h {
        break;
      }
      ghost var between := pixels[..];
      if y >= 0 {
        PaintPixel(pixels, image, color, x, y);
      } else {
        PaintedNothing(image, color, between, Box(x, x + 1, y, y + 1));
      }
      PaintedBoth(image, color, before, between, pixels[..],
                  Box(x, x + 1, y0, y), Box(x, x + 1, y, y + 1), Box(x, x + 1, y0, y + 1));
      y := y + 1;
    }
    PaintedSame(image, color, before, pixels[..], Box(x, x + 1, y0, y), Box(x, x + 1, y0, y1));
  }

  /** The left and the right side are painted column by column. */
  method PaintColumns(pixels: array<Byte>, image: Image, color: nat, x0: int, x1: int, y0: int, y1: int)
    requires pixels.Length >= image.Size()
    modifies pixels
    ensures Painted(image, color, old(pixels[..]), pixels[..], Box(x0, x1, y0, y1))
  {
    hide Painted;
    ghost var before := pixels[..];
    PaintedNothing(image, color, before, Box(x0, x0, y0, y1));
    var x := x0;
    while x < x1
      invariant x == x0 || x0 <= x <= x1
      invariant Painted(image, color, before, pixels[..], Box(x0, x, y0, y1))
      decreases x1 - x
    {
      if x >= image.w {
        break;
      }
      ghost var between := pixels[..];
      if x >= 0 {
        PaintColumn(pixels, image, color, x, y0, y1);
      } else {
        PaintedNothing(image, color, between, Box(x, x + 1, y0, y1));
      }
      PaintedBoth(image, color, before, between, pixels[..],
                  Box(x0, x, y0, y1), Box(x, x + 1, y0, y1), Box(x0, x + 1, y0, y1));
      x := x + 1;
    }
    PaintedSame(image, color, before, pixels[..], Box(x0, x, y0, y1), Box(x0, x1, y0, y1));
  }

  /** C's division truncates toward zero. */
  function Half(n: int): int { if n >= 0 then n / 2 else -(-n / 2) }

  function Top(rx: int, ry: int, rw: int, rh: int, t0: int, t1: int): Shape {
    Box(rx - t0, rx + rw + t1, ry - t0, ry + t1)
  }

  function Bottom(rx: int, ry: int, rw: int, rh: int, t0: int, t1: int): Shape {
    Box(rx - t0, rx + rw + t1, ry + rh - t0, ry + rh + t1)
  }

  function Left(rx: int, ry: int, rw: int, rh: int, t0: int, t1: int): Shape {
    Box(rx - t0, rx + t1, ry + t1, ry + rh - t0)
  }

  function Right(rx: int, ry: int, rw: int, rh: int, t0: int, t1: int): Shape {
    Box(rx + rw - t0, rx + rw + t1, ry + t1, ry + rh - t0)
  }

  /** What draw_rectangle paints: the filled rectangle, or its four sides. */
  function Border(rx: int, ry: int, rw: int, rh: int, thickness: int): Shape {
    if thickness == -1 then Box(rx, rx + rw, ry, ry + rh)
    else
      var t0 := Half(thickness);
      var t1 := thickness - t0;
      Both(Both(Both(Top(rx, ry, rw, rh, t0, t1), Bottom(rx, ry, rw, rh, t0, t1)), Left(rx, ry, rw, rh, t0, t1)),
           Right(rx, ry, rw, rh, t0, t1))
  }

  /** draw_rectangle: for every rectangle, however it lies to the image, and every thickness. */
  method DrawRectangle(pixels: array<Byte>, image: Image, rx: int, ry: int, rw: int, rh: int, color: nat, thickness: int)
    requires pixels.Length >= image.Size()
    modifies pixels
    ensures Painted(image, color, old(pixels[..]), pixels[..], Border(rx, ry, rw, rh, thickness))
  {
    hide Painted;
    if thickness == -1 {
      PaintRows(pixels, image, color, rx, rx + rw, ry, ry + rh);
      return;
    }
    var t0 := Half(thickness);
    var t1 := thickness - t0;
    ghost var p0 := pixels[..];
    PaintRows(pixels, image, color, rx - t0, rx + rw + t1, ry - t0, ry + t1);
    ghost var p1 := pixels[..];
    PaintRows(pixels, image, color, rx - t0, rx + rw + t1, ry + rh - t0, ry + rh + t1);
    ghost var p2 := pixels[..];
    PaintColumns(pixels, image, color, rx - t0, rx + t1, ry + t1, ry + rh - t0);
    ghost var p3 := pixels[..];
    PaintColumns(pixels, image, color, rx + rw - t0, rx + rw + t1, ry + t1, ry + rh - t0);
    ghost var a, b := Top(rx, ry, rw, rh, t0, t1), Bottom(rx, ry, rw, rh, t0, t1);
    ghost var c, d := Left(rx, ry, rw, rh, t0, t1), Right(rx, ry, rw, rh, t0, t1);
    PaintedBoth(image, color, p0, p1, p2, a, b, Both(a, b));
    PaintedBoth(image, color, p0, p2, p3, Both(a, b), c, Both(Both(a, b), c));
    PaintedBoth(image, color, p0, p3, pixels[..], Both(Both(a, b), c), d, Both(Both(Both(a, b), c), d));
  }

  // ------------------------------------------------------------------------------ what it looks like

  /** Half the thickness, rounded down, lies outside on the left and on the top, the rest inside; on the right and
      on the bottom it is the other way round. */
  ghost predicate InOuter(rx: int, ry: int, rw: int, rh: int, thickness: int, x: int, y: int) {
    var t0 := thickness / 2;
    var t1 := thickness - t0;
    rx - t0 <= x < rx + rw + t1 && ry - t0 <= y < ry + rh + t1
  }

  ghost predicate InInner(rx: int, ry: int, rw: int, rh: int, thickness: int, x: int, y: int) {
    var t0 := thickness / 2;
    var t1 := thickness - t0;
    rx + t1 <= x < rx + rw - t0 && ry + t1 <= y < ry + rh - t0
  }

  ghost predicate InRing(rx: int, ry: int, rw: int, rh: int, thickness: int, x: int, y: int) {
    InOuter(rx, ry, rw, rh, thickness, x, y) && !InInner(rx, ry, rw, rh, thickness, x, y)
  }

  /** For which rectangles the four sides make the ring between outer and inner rectangle. */
  predicate IsDrawable(rw: int, rh: int, thickness: int) {
    if rw >= 0 then rh >= 0
    else rh <= thickness && (rh >= 0 || rw <= -thickness)
  }

  lemma BorderHas(rx: int, ry: int, rw: int, rh: int, thickness: int, x: int, y: int)
    requires thickness != -1
    ensures var t0 := Half(thickness);
      var t1 := thickness - t0;
      Border(rx, ry, rw, rh, thickness).Has(x, y)
        == (Top(rx, ry, rw, rh, t0, t1).Has(x, y) || Bottom(rx, ry, rw, rh, t0, t1).Has(x, y)
            || Left(rx, ry, rw, rh, t0, t1).Has(x, y) || Right(rx, ry, rw, rh, t0, t1).Has(x, y))
  {
    var sides := Border(rx, ry, rw, rh, thickness);
    assert sides.Has(x, y) == (sides.a.Has(x, y) || sides.b.Has(x, y));
    assert sides.a.Has(x, y) == (sides.a.a.Has(x, y) || sides.a.b.Has(x, y));
  }

  lemma RingPixel(rx: int, ry: int, rw: int, rh: int, thickness: int, x: int, y: int)
    requires thickness >= 1 && IsDrawable(rw, rh, thickness)
    ensures Border(rx, ry, rw, rh, thickness).Has(x, y) == InRing(rx, ry, rw, rh, thickness, x, y)
  {
    BorderHas(rx, ry, rw, rh, thickness, x, y);
  }

  /** A pixel at which the sides and the ring differ. */
  lemma NotARing(rx: int, ry: int, rw: int, rh: int, thickness: int) returns (x: int, y: int)
    requires thickness >= 1 && !IsDrawable(rw, rh, thickness)
    ensures Border(rx, ry, rw, rh, thickness).Has(x, y) != InRing(rx, ry, rw, rh, thickness, x, y)
  {
    var t0 := Half(thickness);
    var t1 := thickness - t0;
    if rh < 0 && rw > -thickness {
      x, y := rx - t0, ry + t1 - 1;
    } else {
      x, y := rx + t1 - 1, ry + t1;
    }
    BorderHas(rx, ry, rw, rh, thickness, x, y);
  }

  /** The sides are the ring exactly for these rectangles; in particular for all of non-negative size, also
      where the sides overlap. */
  lemma RingIff(rx: int, ry: int, rw: int, rh: int, thickness: int)
    requires thickness >= 1
    ensures (forall x, y :: Border(rx, ry, rw, rh, thickness).Has(x, y) == InRing(rx, ry, rw, rh, thickness, x, y))
      <==> IsDrawable(rw, rh, thickness)
    ensures rw >= 0 && rh >= 0 ==> IsDrawable(rw, rh, thickness)
  {
    hide Border, InRing;
    if IsDrawable(rw, rh, thickness) {
      forall x, y ensures Border(rx, ry, rw, rh, thickness).Has(x, y) == InRing(rx, ry, rw, rh, thickness, x, y) {
        RingPixel(rx, ry, rw, rh, thickness, x, y);
      }
    } else {
      var x, y := NotARing(rx, ry, rw, rh, thickness);
    }
  }

  /** Thickness -1 fills the rectangle. */
  lemma FilledIs(rx: int, ry: int, rw: int, rh: int, x: int, y: int)
    ensures Border(rx, ry, rw, rh, -1).Has(x, y) <==> 0 <= x - rx < rw && 0 <= y - ry < rh
  {
  }

  /** Zero and the negative thicknesses other than -1 paint nothing. */
  lemma NoThicknessNothing(rx: int, ry: int, rw: int, rh: int, thickness: int, x: int, y: int)
    requires thickness <= 0 && thickness != -1
    ensures !Border(rx, ry, rw, rh, thickness).Has(x, y)
  {
    BorderHas(rx, ry, rw, rh, thickness, x, y);
  }
}
