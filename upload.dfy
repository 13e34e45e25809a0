/**
 * The upload layout of LoadTextureFromMemory (main.cpp): the RGBA pixels
 * of a decoded image are copied row by row into an upload buffer whose
 * rows are `uploadPitch` bytes apart, the pitch being the row size rounded
 * up to D3D12_TEXTURE_DATA_PITCH_ALIGNMENT.
 */
module Upload {

  /** D3D12_TEXTURE_DATA_PITCH_ALIGNMENT. */
  const PitchAlignment: nat := 256

  /** Bytes per RGBA8 pixel. */
  const BytesPerPixel: nat := 4

  /** The source's mask form of the round-up, on 32-bit UINT: (x + 255) & ~255. */
  function AlignMask(x: bv32): bv32
  {
    (x + 255) & !255
  }

  /** While x + 255 does not wrap, the mask rounds x up to the next multiple of 256, as UploadPitch does. */
  lemma AlignMaskRoundsUp(x: bv32)
    requires x <= 0xFFFF_FF00
    ensures AlignMask(x) % 256 == 0 && x <= AlignMask(x) && AlignMask(x) - x < 256
  {
  }

  /**
   * uploadPitch: the row size width·4 rounded up to a multiple of 256; it
   * holds a row and wastes less than one alignment unit.
   */
  function UploadPitch(width: nat): (pitch: nat)
    ensures pitch % PitchAlignment == 0
    ensures width * BytesPerPixel <= pitch < width * BytesPerPixel + PitchAlignment
  {
    var x := width * BytesPerPixel + PitchAlignment - 1;
    assert x == x / PitchAlignment * PitchAlignment + x % PitchAlignment;
    x / PitchAlignment * PitchAlignment
  }

  /** uploadSize: one pitch per image row. */
  function UploadSize(width: nat, height: nat): nat
  {
    height * UploadPitch(width)
  }

  /** Row `y` of a buffer whose rows are `pitch` apart and `rowBytes` long. */
  function RowAt(buf: seq<bv8>, y: nat, rowBytes: nat, pitch: nat): seq<bv8>
    requires y * pitch + rowBytes <= |buf|
  {
    buf[y * pitch .. y * pitch + rowBytes]
  }

  /** `buf` with `src` written at `off`: what memcpy leaves. */
  function Written(buf: seq<bv8>, off: nat, src: seq<bv8>): (r: seq<bv8>)
    requires off + |src| <= |buf|
    ensures |r| == |buf|
  {
    buf[..off] + src + buf[off + |src|..]
  }

  /** Multiplication by a natural number is monotone. */
  lemma MulMono(a: nat, b: nat, p: nat)
    requires a <= b
    ensures a * p <= b * p
  {
    var d := b - a;
    assert b * p == a * p + d * p;
  }

  /** y·pitch + rowBytes stays inside a buffer of `rows` pitches. */
  lemma RowFits(y: nat, rows: nat, rowBytes: nat, pitch: nat)
    requires y < rows && rowBytes <= pitch
    ensures y * pitch + rowBytes <= (y + 1) * pitch <= rows * pitch
  {
    MulMono(y + 1, rows, pitch);
  }

  /** Rows 0..k of `src` placed in `buf`: the buffer after k iterations of the copy loop. */
  function Placed(buf: seq<bv8>, src: seq<bv8>, rowBytes: nat, pitch: nat, k: nat): (r: seq<bv8>)
    requires rowBytes <= pitch && k * pitch <= |buf| && k * rowBytes <= |src|
    ensures |r| == |buf|
    decreases k
  {
    if k == 0 then buf
    else
      RowFits(k - 1, k, rowBytes, pitch);
      assert (k - 1) * rowBytes + rowBytes == k * rowBytes;
      Written(Placed(buf, src, rowBytes, pitch, k - 1), (k - 1) * pitch, src[(k - 1) * rowBytes .. k * rowBytes])
  }

  /** The rows of an upload buffer read back in order. */
  function ReadBack(buf: seq<bv8>, rowBytes: nat, pitch: nat, rows: nat): (r: seq<bv8>)
    requires rowBytes <= pitch && rows * pitch <= |buf|
    ensures |r| == rows * rowBytes
    decreases rows
  {
    if rows == 0 then []
    else
      RowFits(rows - 1, rows, rowBytes, pitch);
      assert (rows - 1) * rowBytes + rowBytes == rows * rowBytes;
      ReadBack(buf, rowBytes, pitch, rows - 1) + RowAt(buf, rows - 1, rowBytes, pitch)
  }

  /** One more iteration of the copy loop writes source row y at y·pitch. */
  lemma PlacedStep(buf: seq<bv8>, src: seq<bv8>, rowBytes: nat, pitch: nat, rows: nat, y: nat)
    requires rowBytes <= pitch && rows * pitch <= |buf| && rows * rowBytes <= |src| && y < rows
    ensures 0 <= y * pitch && 0 <= y * rowBytes
    ensures y * pitch + rowBytes <= (y + 1) * pitch <= |buf|
    ensures y * rowBytes + rowBytes == (y + 1) * rowBytes <= |src|
    ensures Placed(buf, src, rowBytes, pitch, y + 1)
         == Written(Placed(buf, src, rowBytes, pitch, y), y * pitch, src[y * rowBytes .. y * rowBytes + rowBytes])
  {
    RowFits(y, rows, rowBytes, pitch);
    MulMono(0, y, pitch);
    MulMono(0, y, rowBytes);
    MulMono(y + 1, rows, rowBytes);
  }

  /** Writing at or beyond row y's pitch slot leaves rows before y as they were. */
  lemma {:induction false} WrittenKeepsRow(buf: seq<bv8>, off: nat, src: seq<bv8>, y: nat, rowBytes: nat, pitch: nat)
    requires off + |src| <= |buf| && y * pitch + rowBytes <= off && rowBytes <= pitch
    ensures RowAt(Written(buf, off, src), y, rowBytes, pitch) == RowAt(buf, y, rowBytes, pitch)
  {
    var w := Written(buf, off, src);
    assert forall i :: y * pitch <= i < y * pitch + rowBytes ==> w[i] == buf[i];
  }

  /** Writing a row at y·pitch makes it row y. */
  lemma WrittenRow(buf: seq<bv8>, row: seq<bv8>, y: nat, rowBytes: nat, pitch: nat)
    requires |row| == rowBytes && y * pitch + rowBytes <= |buf|
    ensures RowAt(Written(buf, y * pitch, row), y, rowBytes, pitch) == row
  {
  }

  /** The last iteration of Placed(.., k) as a memcpy, with the bounds it needs. */
  lemma PlacedLast(buf: seq<bv8>, src: seq<bv8>, rowBytes: nat, pitch: nat, k: nat)
    requires rowBytes <= pitch && k * pitch <= |buf| && k * rowBytes <= |src| && k >= 1
    ensures 0 <= (k - 1) * pitch && (k - 1) * pitch + rowBytes <= |buf|
    ensures 0 <= (k - 1) * rowBytes && (k - 1) * rowBytes + rowBytes == k * rowBytes <= |src|
    ensures Placed(buf, src, rowBytes, pitch, k)
         == Written(Placed(buf, src, rowBytes, pitch, k - 1), (k - 1) * pitch, src[(k - 1) * rowBytes .. k * rowBytes])
  {
    RowFits(k - 1, k, rowBytes, pitch);
    MulMono(0, k - 1, pitch);
    MulMono(0, k - 1, rowBytes);
    assert (k - 1) * rowBytes + rowBytes == k * rowBytes;
  }

  /** The last iteration of Placed(.., k) writes source row y = k-1 at its place. */
  lemma PlacedRowLast(buf: seq<bv8>, src: seq<bv8>, rowBytes: nat, pitch: nat, k: nat, y: nat)
    requires rowBytes <= pitch && k * pitch <= |buf| && k * rowBytes <= |src| && y + 1 == k
    ensures y * pitch + rowBytes <= |buf| && 0 <= y * rowBytes && y * rowBytes + rowBytes <= |src|
    ensures RowAt(Placed(buf, src, rowBytes, pitch, k), y, rowBytes, pitch) == src[y * rowBytes .. y * rowBytes + rowBytes]
  {
    PlacedLast(buf, src, rowBytes, pitch, k);
    assert k - 1 == y;
    WrittenRow(Placed(buf, src, rowBytes, pitch, k - 1), src[(k - 1) * rowBytes .. k * rowBytes], k - 1, rowBytes, pitch);
  }

  /** The last iteration of Placed(.., k) leaves an earlier row y as it was. */
  lemma PlacedRowKept(buf: seq<bv8>, src: seq<bv8>, rowBytes: nat, pitch: nat, k: nat, y: nat)
    requires rowBytes <= pitch && k * pitch <= |buf| && k * rowBytes <= |src| && y + 1 < k
    ensures (k - 1) * pitch <= |buf| && (k - 1) * rowBytes <= |src| && y * pitch + rowBytes <= |buf|
    ensures RowAt(Placed(buf, src, rowBytes, pitch, k), y, rowBytes, pitch) == RowAt(Placed(buf, src, rowBytes, pitch, k - 1), y, rowBytes, pitch)
  {
    PlacedLast(buf, src, rowBytes, pitch, k);
    RowFits(y, k - 1, rowBytes, pitch);
    WrittenKeepsRow(Placed(buf, src, rowBytes, pitch, k - 1), (k - 1) * pitch, src[(k - 1) * rowBytes .. k * rowBytes], y, rowBytes, pitch);
  }

  /** Later rows do not disturb earlier ones: row y of Placed(.., k) is source row y for every y < k. */
  lemma {:induction false} PlacedRow(buf: seq<bv8>, src: seq<bv8>, rowBytes: nat, pitch: nat, k: nat, y: nat)
    requires rowBytes <= pitch && k * pitch <= |buf| && k * rowBytes <= |src| && y < k
    ensures y * pitch + rowBytes <= |buf| && 0 <= y * rowBytes && y * rowBytes + rowBytes <= |src|
    ensures RowAt(Placed(buf, src, rowBytes, pitch, k), y, rowBytes, pitch) == src[y * rowBytes .. y * rowBytes + rowBytes]
    decreases k
  {
    if y + 1 == k {
      PlacedRowLast(buf, src, rowBytes, pitch, k, y);
    } else {
      PlacedRowKept(buf, src, rowBytes, pitch, k, y);
      PlacedRow(buf, src, rowBytes, pitch, k - 1, y);
    }
  }

  /** Reading back rows 0..m of a buffer whose rows 0..m are the source's gives the source's first m rows. */
  lemma {:induction false} ReadBackPrefix(buf: seq<bv8>, src: seq<bv8>, rowBytes: nat, pitch: nat, k: nat, m: nat)
    requires rowBytes <= pitch && k * pitch <= |buf| && k * rowBytes <= |src| && m <= k
    ensures m * pitch <= k * pitch && m * rowBytes <= k * rowBytes
    ensures ReadBack(Placed(buf, src, rowBytes, pitch, k), rowBytes, pitch, m) == src[..m * rowBytes]
    decreases m
  {
    MulMono(m, k, pitch);
    MulMono(m, k, rowBytes);
    if m > 0 {
      var p := Placed(buf, src, rowBytes, pitch, k);
      ReadBackPrefix(buf, src, rowBytes, pitch, k, m - 1);
      PlacedRow(buf, src, rowBytes, pitch, k, m - 1);
      assert (m - 1) * rowBytes + rowBytes == m * rowBytes;
      assert src[..m * rowBytes] == src[..(m - 1) * rowBytes] + src[(m - 1) * rowBytes .. m * rowBytes];
    }
  }

  /** The round trip: reading the written rows back yields the original pixels. */
  lemma RowsRoundTrip(buf: seq<bv8>, src: seq<bv8>, rowBytes: nat, pitch: nat, rows: nat)
    requires rowBytes <= pitch && rows * pitch <= |buf| && |src| == rows * rowBytes
    ensures ReadBack(Placed(buf, src, rowBytes, pitch, rows), rowBytes, pitch, rows) == src
  {
    ReadBackPrefix(buf, src, rowBytes, pitch, rows, rows);
  }

  /** memcpy(dst + off, src, |src|). */
  method Memcpy(dst: array<bv8>, off: nat, src: seq<bv8>)
    requires off + |src| <= dst.Length
    modifies dst
    ensures dst[..] == Written(old(dst[..]), off, src)
  {
    ghost var before := dst[..];
    for i := 0 to |src|
      invariant forall j :: 0 <= j < dst.Length ==> dst[j] == if off <= j < off + i then src[j - off] else before[j]
    {
      dst[off + i] := src[i];
    }
    assert dst[..] == Written(before, off, src);
  }

  /**
   * The copy loop of LoadTextureFromMemory: image row y, rowBytes = width·4
   * bytes, goes to offset y·pitch of the mapped buffer, pitch being
   * UploadPitch(width), which is at least width·4; RowsRoundTrip reads the rows back.
   */
  method CopyRows(mapped: array<bv8>, pixels: seq<bv8>, rowBytes: nat, pitch: nat, height: nat)
    requires rowBytes <= pitch && |pixels| == height * rowBytes && mapped.Length == height * pitch
    modifies mapped
    ensures mapped[..] == Placed(old(mapped[..]), pixels, rowBytes, pitch, height)
  {
    ghost var before := mapped[..];
    for y := 0 to height
      invariant y * pitch <= |before| && y * rowBytes <= |pixels|
      invariant mapped[..] == Placed(before, pixels, rowBytes, pitch, y)
    {
      PlacedStep(before, pixels, rowBytes, pitch, height, y);
      Memcpy(mapped, y * pitch, pixels[y * rowBytes .. y * rowBytes + rowBytes]);
    }
  }
}
