/** Copying a client's cursor bitmap into the square image the hardware shows. */
module CursorImages {
  import opened Common
  import opened Surfaces

  /** The side of the square cursor image for an accepted request. */
  function CursorSide(width: nat, height: nat): Option<nat> {
    if width > 256 || height > 256 then None
    else if width > 128 || height > 128 then Some(256)
    else if width > 64 || height > 64 then Some(128)
    else if width > 32 || height > 32 then Some(64)
    else Some(32)
  }

  /** s is one of the sides the hardware knows and holds the request. */
  predicate Fits(s: nat, width: nat, height: nat) {
    s in {32, 64, 128, 256} && width <= s && height <= s
  }

  /** The accepted requests are those that fit the largest square, and the square chosen is the
      smallest that fits. */
  lemma CursorSideIsLeast(width: nat, height: nat)
    ensures CursorSide(width, height).None? <==> forall s: nat :: !Fits(s, width, height)
    ensures CursorSide(width, height).Some? ==>
              var side := CursorSide(width, height).value;
              Fits(side, width, height) && forall s: nat :: Fits(s, width, height) ==> side <= s
  {
    assert width <= 256 && height <= 256 ==> Fits(256, width, height);
  }

  /** Where row y starts, as the loop counts it. */
  function Offset(y: nat, pitch: nat): nat {
    if y == 0 then 0 else Offset(y - 1, pitch) + pitch
  }

  lemma {:induction false} OffsetIsProduct(y: nat, pitch: nat)
    ensures Offset(y, pitch) == y * pitch
  {
    if y > 0 {
      OffsetIsProduct(y - 1, pitch);
    }
  }

  lemma {:induction false} OffsetGrows(y: nat, n: nat, pitch: nat)
    requires y < n
    ensures Offset(y, pitch) + pitch <= Offset(n, pitch)
  {
    if y + 1 < n {
      OffsetGrows(y, n - 1, pitch);
    }
  }

  /** What the client hands over: `height` rows of `width` pixels of four bytes, bytesPerRow apart. */
  datatype Source = Source(data: seq<bv8>, width: nat, height: nat, bytesPerRow: nat)

  ghost predicate Readable(s: Source) {
    s.height > 0 ==> Offset(s.height - 1, s.bytesPerRow) + 4 * s.width <= |s.data|
  }

  /** Byte x of image row y: the client's byte inside its bitmap, zero outside. */
  function Byte(s: Source, y: nat, x: nat): bv8
    requires Readable(s)
  {
    if y < s.height && x < 4 * s.width then
      RowInside(s, y);
      s.data[Offset(y, s.bytesPerRow) + x]
    else 0
  }

  lemma RowInside(s: Source, y: nat)
    requires Readable(s) && y < s.height
    ensures Offset(y, s.bytesPerRow) + 4 * s.width <= |s.data|
  {
    if y < s.height - 1 {
      OffsetGrows(y, s.height - 1, s.bytesPerRow);
    }
  }

  function Row(s: Source, pitch: nat, y: nat): (r: seq<bv8>)
    requires Readable(s)
    ensures |r| == pitch
  {
    seq(pitch, x requires 0 <= x < pitch => Byte(s, y, x))
  }

  /** The first n rows of the image. */
  ghost function Rows(s: Source, pitch: nat, n: nat): (r: seq<bv8>)
    requires Readable(s)
    ensures |r| == Offset(n, pitch)
  {
    if n == 0 then [] else Rows(s, pitch, n - 1) + Row(s, pitch, n - 1)
  }

  /** The image byte by byte: the source at (x, y) inside, zero outside. */
  lemma {:induction false} RowsAt(s: Source, pitch: nat, n: nat, y: nat, x: nat)
    requires Readable(s) && y < n && x < pitch
    ensures Offset(y, pitch) + x < Offset(n, pitch)
    ensures Rows(s, pitch, n)[Offset(y, pitch) + x] == Byte(s, y, x)
  {
    OffsetGrows(y, n, pitch);
    if y < n - 1 {
      RowsAt(s, pitch, n - 1, y, x);
    }
  }

  /** The same in plain coordinates: byte x of row y is byte x of row y of what the client handed
      over, where that reaches, and zero elsewhere. */
  lemma ImageAt(s: Source, pitch: nat, n: nat, y: nat, x: nat)
    requires Readable(s) && y < n && x < pitch
    ensures 0 <= y * pitch + x < |Rows(s, pitch, n)|
    ensures y < s.height && x < 4 * s.width ==>
              0 <= y * s.bytesPerRow + x < |s.data| &&
              Rows(s, pitch, n)[y * pitch + x] == s.data[y * s.bytesPerRow + x]
    ensures !(y < s.height && x < 4 * s.width) ==> Rows(s, pitch, n)[y * pitch + x] == 0
  {
    RowsAt(s, pitch, n, y, x);
    OffsetIsProduct(y, pitch);
    OffsetIsProduct(y, s.bytesPerRow);
    if y < s.height {
      RowInside(s, y);
    }
  }

  /** Rows below the client's bitmap are blank. */
  lemma {:induction false} RowsBelow(s: Source, pitch: nat, n: nat, i: nat)
    requires Readable(s) && s.height <= n && Offset(s.height, pitch) <= i < Offset(n, pitch)
    ensures Rows(s, pitch, n)[i] == 0
  {
    if i < Offset(n - 1, pitch) {
      RowsBelow(s, pitch, n - 1, i);
    }
  }

  lemma {:induction false} RowsExtend(s: Source, pitch: nat, m: nat, n: nat)
    requires Readable(s) && m <= n
    ensures Offset(m, pitch) <= Offset(n, pitch)
    ensures Rows(s, pitch, n)[..Offset(m, pitch)] == Rows(s, pitch, m)
  {
    if m < n {
      RowsExtend(s, pitch, m, n - 1);
    }
  }

  /** One memcpy: the bytes of a row that the client supplies, into a row that is still blank. */
  method CopyRow(bits: array<bv8>, s: Source, pitch: nat, y: nat, dstLine: nat, srcLine: nat)
    requires Readable(s) && y < s.height && 4 * s.width <= pitch
    requires dstLine + pitch <= bits.Length && srcLine == Offset(y, s.bytesPerRow)
    requires forall i :: dstLine <= i < dstLine + pitch ==> bits[i] == 0
    modifies bits
    ensures bits[..dstLine + pitch] == old(bits[..dstLine]) + Row(s, pitch, y)
    ensures bits[dstLine + pitch..] == old(bits[dstLine + pitch..])
  {
    RowInside(s, y);
    forall x | 0 <= x < 4 * s.width {
      bits[dstLine + x] := s.data[srcLine + x];
    }
  }

  /** The image once `done` rows are in and the rest of it is blank. */
  ghost predicate Written(bits: seq<bv8>, s: Source, pitch: nat, done: nat, side: nat, behind: seq<bv8>)
    requires Readable(s)
  {
    && Offset(done, pitch) <= Offset(side, pitch) <= |bits|
    && bits[..Offset(done, pitch)] == Rows(s, pitch, done)
    && (forall i :: Offset(done, pitch) <= i < Offset(side, pitch) ==> bits[i] == 0)
    && bits[Offset(side, pitch)..] == behind
  }

  lemma OneRowWritten(was: seq<bv8>, bits: seq<bv8>, s: Source, pitch: nat, y: nat, side: nat, behind: seq<bv8>)
    requires Readable(s) && Written(was, s, pitch, y, side, behind) && y < side && |bits| == |was|
    requires var at := Offset(y, pitch);
             && at + pitch <= |bits|
             && bits[..at + pitch] == was[..at] + Row(s, pitch, y)
             && bits[at + pitch..] == was[at + pitch..]
    ensures Written(bits, s, pitch, y + 1, side, behind)
  {
    OffsetGrows(y, side, pitch);
    var at := Offset(y, pitch) + pitch;
    forall i | at <= i < |bits| ensures bits[i] == was[i] {
      assert bits[at..][i - at] == was[at..][i - at];
    }
    assert bits[Offset(side, pitch)..] == was[Offset(side, pitch)..];
  }

  lemma AllWritten(bits: seq<bv8>, s: Source, pitch: nat, side: nat, behind: seq<bv8>)
    requires Readable(s) && s.height <= side && Written(bits, s, pitch, s.height, side, behind)
    ensures bits[..Offset(side, pitch)] == Rows(s, pitch, side)
  {
    RowsExtend(s, pitch, s.height, side);
    var image := Rows(s, pitch, side);
    forall i | 0 <= i < Offset(side, pitch) ensures bits[i] == image[i] {
      if i < Offset(s.height, pitch) {
        assert image[..Offset(s.height, pitch)][i] == bits[..Offset(s.height, pitch)][i];
      } else {
        RowsBelow(s, pitch, side, i);
      }
    }
  }

  /** memset and the row loop of SetCursorBitmap. The mapping is as long as the constructor made
      it; the client's data need only reach to the end of its last row. */
  method WriteImage(bits: array<bv8>, side: nat, s: Source)
    requires CursorSide(s.width, s.height) == Some(side)
    requires bits.Length == AlignUp(BytesPerRow(side) * side, PAGE_SIZE)
    requires Readable(s)
    modifies bits
    ensures BytesPerRow(side) * side == Offset(side, BytesPerRow(side)) <= bits.Length
    ensures bits[..BytesPerRow(side) * side] == Rows(s, BytesPerRow(side), side)
    ensures bits[BytesPerRow(side) * side..] == old(bits[BytesPerRow(side) * side..])
  {
    var pitch := BytesPerRow(side);
    RowHoldsPixels(side);
    AlignUpIsLeast(pitch * side, PAGE_SIZE);
    OffsetIsProduct(side, pitch);
    var length := pitch * side;
    ghost var behind := bits[length..];
    Blank(bits, length);
    var dstLine, srcLine, y := 0, 0, 0;
    while y < s.height
      invariant 0 <= y <= s.height && dstLine == Offset(y, pitch) && srcLine == Offset(y, s.bytesPerRow)
      invariant Written(bits[..], s, pitch, y, side, behind)
    {
      OffsetGrows(y, side, pitch);
      ghost var was := bits[..];
      CopyRow(bits, s, pitch, y, dstLine, srcLine);
      OneRowWritten(was, bits[..], s, pitch, y, side, behind);
      dstLine := dstLine + pitch;
      srcLine := srcLine + s.bytesPerRow;
      y := y + 1;
    }
    AllWritten(bits[..], s, pitch, side, behind);
  }

  /** The memset. */
  method Blank(bits: array<bv8>, length: nat)
    requires length <= bits.Length
    modifies bits
    ensures forall i :: 0 <= i < length ==> bits[i] == 0
    ensures bits[length..] == old(bits[length..])
  {
    forall i | 0 <= i < length {
      bits[i] := 0;
    }
  }
}
