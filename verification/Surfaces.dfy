/** The arithmetic of a linear 32-bit surface. */
module Surfaces {
  import opened Common

  const PITCH_ALIGN: nat := 256
  const PAGE_SIZE: nat := 4096

  /** AlignUp, for arguments whose sum stays below 2^64. */
  function AlignUp(val: nat, align: nat): nat
    requires align > 0
  {
    (val + (align - 1)) / align * align
  }

  /** The smallest multiple of `align` that is not below `val`. */
  lemma AlignUpIsLeast(val: nat, align: nat)
    requires align > 0
    ensures var r := AlignUp(val, align);
            && r % align == 0
            && val <= r < val + align
            && forall m: nat :: m % align == 0 && m >= val ==> r <= m
  {
    var q := (val + (align - 1)) / align;
    QuotientBounds(val + (align - 1), align);
    MultipleHasNoRemainder(q, align);
    forall m: nat | m % align == 0 && m >= val ensures q * align <= m {
      LeastMultiple(val, align, q, m);
    }
  }

  lemma LeastMultiple(val: nat, align: nat, q: nat, m: nat)
    requires align > 0 && q * align < val + align && m >= val && m % align == 0
    ensures q * align <= m
  {
    QuotientBounds(m, align);
    Cancel(q, m / align + 1, align);
    Cancel(m / align, q, align);
  }

  lemma Cancel(a: nat, b: nat, d: nat)
    requires d > 0
    ensures a * d < b * d <==> a < b
  {
    if a < b {
      assert (a + 1) * d <= b * d;
    } else {
      assert a * d >= b * d;
    }
  }

  lemma QuotientBounds(a: nat, d: nat)
    requires d > 0
    ensures a / d * d <= a < a / d * d + d
    ensures a % d == a - a / d * d
  {
  }

  lemma MultipleHasNoRemainder(q: nat, d: nat)
    requires d > 0
    ensures q * d % d == 0
  {
    QuotientBounds(q * d, d);
    Cancel(q * d / d, q, d);
    Cancel(q, q * d / d + 1, d);
  }

  /** fBytesPerRow of a bitmap of the given width, in uint32 arithmetic. */
  function BytesPerRow(width: nat): nat {
    AlignUp(4 * width % WORD, PITCH_ALIGN) % WORD
  }

  /** Widths come from 16-bit fields; there nothing wraps and a row holds all its pixels. */
  lemma RowHoldsPixels(width: nat)
    requires width < 0x1_0000
    ensures 4 * width <= BytesPerRow(width) < 4 * width + PITCH_ALIGN
    ensures BytesPerRow(width) % PITCH_ALIGN == 0
  {
    assert 4 * width % WORD == 4 * width;
    var rows := (4 * width + 255) / 256;
    assert BytesPerRow(width) == rows * 256 % WORD == rows * 256;
  }

  function TotalBytes(width: nat, height: nat): nat {
    height * BytesPerRow(width)
  }

  /** The length of a mapping: the size is computed in uint32, the rounding in size_t. */
  function MappedLength(bytes: nat): nat {
    AlignUp(bytes % WORD, PAGE_SIZE)
  }

  lemma MappedLengthBounds(bytes: nat)
    ensures bytes < WORD ==> bytes <= MappedLength(bytes)
    ensures bytes >= WORD ==> MappedLength(bytes) < bytes - WORD + PAGE_SIZE
  {
    AlignUpIsLeast(bytes % WORD, PAGE_SIZE);
    QuotientBounds(bytes, WORD);
  }

  function PixelByte(width: nat, y: nat, x: nat): nat {
    y * BytesPerRow(width) + x
  }

  /** Every byte of every pixel of every row lies inside the mapping. */
  ghost predicate PixelsMapped(width: nat, height: nat) {
    forall y: nat, x: nat :: y < height && x < 4 * width ==>
      PixelByte(width, y, x) < MappedLength(TotalBytes(width, height))
  }

  /** The bytes of a row end before the next row starts. */
  lemma PixelBelow(width: nat, height: nat, y: nat, x: nat)
    requires width < 0x1_0000 && y < height && x < 4 * width
    ensures PixelByte(width, y, x) < TotalBytes(width, height)
  {
    RowHoldsPixels(width);
    RowsGrow(y, height, BytesPerRow(width));
  }

  lemma {:induction false} RowsGrow(y: nat, height: nat, pitch: nat)
    requires y < height
    ensures y * pitch + pitch <= height * pitch
    ensures y + 1 == height ==> y * pitch + pitch == height * pitch
  {
    assert height * pitch == (height - 1) * pitch + pitch;
    if y + 1 < height {
      RowsGrow(y, height - 1, pitch);
    }
  }

  /** Behind the last pixel there is less than the alignment of a row. */
  lemma LastPixel(width: nat, height: nat)
    requires 0 < width < 0x1_0000 && height > 0
    ensures PixelByte(width, height - 1, 4 * width - 1) + PITCH_ALIGN >= TotalBytes(width, height)
  {
    RowHoldsPixels(width);
    RowsGrow(height - 1, height, BytesPerRow(width));
  }

  lemma NoBytes(width: nat, height: nat)
    ensures width == 0 || height == 0 ==> TotalBytes(width, height) == 0
  {
    if height != 0 && width == 0 {
      assert BytesPerRow(0) == 0;
    }
  }

  /** For all 16-bit sizes: the pixels are mapped if and only if the size fits in 32 bits. */
  lemma PixelsMappedIff(width: nat, height: nat)
    requires width < 0x1_0000 && height < 0x1_0000
    ensures PixelsMapped(width, height) <==> TotalBytes(width, height) < WORD
  {
    var bytes := TotalBytes(width, height);
    MappedLengthBounds(bytes);
    if bytes < WORD {
      forall y: nat, x: nat | y < height && x < 4 * width ensures PixelByte(width, y, x) < MappedLength(bytes) {
        PixelBelow(width, height, y, x);
      }
    } else {
      NoBytes(width, height);
      LastPixel(width, height);
      assert PixelByte(width, height - 1, 4 * width - 1) >= MappedLength(bytes);
    }
  }

  /** The input that shows it: 32768 by 32768 pixels take 2^32 bytes and are not mapped at all. */
  lemma LargeSquareUnmapped(side: nat)
    requires side == 0x8000
    ensures TotalBytes(side, side) == WORD && MappedLength(TotalBytes(side, side)) == 0
    ensures !PixelsMapped(side, side)
  {
    assert BytesPerRow(0x8000) == 0x2_0000;
    PixelsMappedIff(side, side);
  }
}
