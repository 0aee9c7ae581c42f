/**
 Bitmaps as GS v 0 stripes: the encoder of the modern agent (`Encoder::raster` in escpos.rs), that
 of the Windows agent (`raster` in core.cpp), and a reader for what they write.
 */
module Raster {
  import opened Prelude

  type Byte = x: int | 0 <= x < 256

  const STRIPE := 128
  const MAX_WIDTH := 832
  const MAX_HEIGHT := 4096

  function Min(a: nat, b: nat): nat { if a <= b then a else b }

  /** Bytes per row. */
  function Stride(width: int): int { (width + 7) / 8 }

  /** Bytes of a number of rows. */
  function Size(stride: nat, rows: nat): nat { stride * rows }

  lemma SizeSplit(stride: nat, rows: nat, height: nat)
    requires rows <= height
    ensures Size(stride, rows) <= Size(stride, height)
    ensures Size(stride, height) - Size(stride, rows) == Size(stride, height - rows)
    ensures stride > 0 && rows > 0 ==> Size(stride, rows) > 0
    ensures Size(stride, 0) == 0
  {
    assert stride * height - stride * rows == stride * (height - rows);
    assert stride > 0 && rows > 0 ==> stride * rows >= stride;
  }

  predicate Accepted(width: int, height: int, bits: seq<Byte>) {
    1 <= width <= MAX_WIDTH && 1 <= height <= MAX_HEIGHT && |bits| == Size(Stride(width), height)
  }

  /** The command that announces a stripe; both sizes are little-endian 16-bit numbers. */
  function Header(stride: nat, rows: nat): (h: seq<Byte>)
    requires stride < 0x1_0000 && rows < 0x1_0000
    ensures |h| == 8
  {
    [0x1d, 0x76, 0x30, 0, stride % 256, stride / 256, rows % 256, rows / 256]
  }

  /** The stripes of a bitmap of `height` rows. */
  function Stripes(stride: nat, height: nat, bits: seq<Byte>): seq<Byte>
    requires stride < 0x1_0000 && |bits| == Size(stride, height)
    decreases height
  {
    if height == 0 then []
    else
      var rows := Min(STRIPE, height);
      SizeSplit(stride, rows, height);
      Header(stride, rows) + bits[..Size(stride, rows)] + Stripes(stride, height - rows, bits[Size(stride, rows)..])
  }

  // ----- the encoders -----

  class Encoder {
    var out: seq<Byte>

    /** The bits are cut in chunks of 128 rows, each written as one stripe. */
    method Raster(width: int, height: int, bits: seq<Byte>) returns (r: Reply<()>)
      modifies this
      ensures r.Ok? <==> (1 <= width <= 832 && 1 <= height <= 4096 && |bits| == Size((width + 7) / 8, height))
      ensures r.Ok? <==> Accepted(width, height, bits)
      ensures r.Ok? ==> out == old(out) + Stripes(Stride(width), height, bits)
      ensures r.Err? ==> out == old(out)
    {
      hide Size, Stripes, Header;
      if !Accepted(width, height, bits) { return Err("ESC_POS_ERROR"); }
      var stride := Stride(width);
      var chunks, index := bits, 0;
      ghost var left := height;
      assert 0 < stride < 256;
      hide Stride, Accepted;
      while |chunks| > 0
        invariant left == (if index * STRIPE <= height then height - index * STRIPE else 0)
        invariant |chunks| == Size(stride, left)
        invariant out + Stripes(stride, left, chunks) == old(out) + Stripes(stride, height, bits)
        decreases |chunks|
      {
        StripeStep(stride, left, chunks);
        var size := Min(stride * STRIPE, |chunks|);
        var rows := Min(height - index * STRIPE, STRIPE);
        out := out + Header(stride, rows);
        out := out + chunks[..size];
        chunks, index, left := chunks[size..], index + 1, left - rows;
      }
      StripesNone(stride, left, chunks);
      return Ok(());
    }
  }

  /** The first chunk is the first stripe. */
  lemma StripeStep(stride: nat, left: nat, chunks: seq<Byte>)
    requires 0 < stride < 0x1_0000 && 0 < |chunks| == Size(stride, left)
    ensures left > 0
    ensures var rows, size := Min(STRIPE, left), Min(stride * STRIPE, |chunks|);
      && size == Size(stride, rows) > 0 && |chunks[size..]| == Size(stride, left - rows)
      && Stripes(stride, left, chunks)
         == Header(stride, rows) + chunks[..size] + Stripes(stride, left - rows, chunks[size..])
  {
    var rows := Min(STRIPE, left);
    assert left > 0;
    SizeSplit(stride, rows, left);
    assert left >= STRIPE ==> Size(stride, STRIPE) <= Size(stride, left);
    assert left < STRIPE ==> rows == left && Size(stride, left) <= stride * STRIPE by {
      if left < STRIPE { SizeSplit(stride, left, STRIPE); }
    }
  }

  lemma StripesNone(stride: nat, left: nat, chunks: seq<Byte>)
    requires 0 < stride < 0x1_0000 && 0 == |chunks| == Size(stride, left)
    ensures Stripes(stride, left, chunks) == []
  {
    assert left == 0;
  }

  predicate AcceptedByWindows(width: int, height: int, bits: seq<Byte>) {
    128 <= width <= MAX_WIDTH && width % 8 == 0 && 0 < height <= MAX_HEIGHT && |bits| == Size(width / 8, height)
  }

  const FEED: seq<Byte> := [27, 100, 3]
  const CUT: seq<Byte> := [29, 86, 0]
  const INITIALIZE: seq<Byte> := [27, 64]

  /** The Windows agent's encoder, with its own row counter and one-byte sizes. */
  method WindowsRaster(width: int, height: int, bits: seq<Byte>, cut: bool) returns (r: Reply<seq<Byte>>)
    ensures r.Ok? <==>
            (128 <= width <= 832 && width % 8 == 0 && 0 < height <= 4096 && |bits| == Size(width / 8, height))
    ensures r.Ok? <==> AcceptedByWindows(width, height, bits)
    ensures r.Ok? ==> r.value == [27, 64] + Stripes(width / 8, height, bits) + [27, 100, 3]
                                    + (if cut then [29, 86, 0] else [])
  {
    hide Size, Stripes;
    if !AcceptedByWindows(width, height, bits) { return Err("INVALID_PAYLOAD"); }
    var out: seq<Byte> := [27, 64];
    var stride, row := width / 8, 0;
    SizeSplit(stride, 0, height);
    assert bits[0..] == bits;
    assert out == INITIALIZE && 0 < stride < 256;
    hide AcceptedByWindows;
    while row < height
      invariant row <= height && Size(stride, row) <= |bits|
      invariant |bits[Size(stride, row)..]| == Size(stride, height - row)
      invariant out + Stripes(stride, height - row, bits[Size(stride, row)..])
                == INITIALIZE + Stripes(stride, height, bits)
    {
      var h := Min(128, height - row);
      WindowsStep(stride, row, h, height, bits);
      out := out + [29, 118, 48, 0, stride, 0, h, 0];
      out := out + bits[Size(stride, row)..Size(stride, row + h)];
      row := row + h;
    }
    StripesNone(stride, 0, bits[Size(stride, row)..]);
    assert out == INITIALIZE + Stripes(stride, height, bits);
    out := out + [27, 100, 3];
    if cut { out := out + [29, 86, 0]; }
    return Ok(out);
  }

  /** The same decomposition, seen from a row number. */
  lemma WindowsStep(stride: nat, row: nat, h: nat, height: nat, bits: seq<Byte>)
    requires 0 < stride < 256 && row < height && h == Min(128, height - row)
    requires |bits| == Size(stride, height)
    ensures Size(stride, row) <= Size(stride, row + h) <= |bits|
    ensures |bits[Size(stride, row)..]| == Size(stride, height - row)
    ensures |bits[Size(stride, row + h)..]| == Size(stride, height - (row + h))
    ensures var head: seq<Byte> := [29, 118, 48, 0, stride, 0, h, 0];
            Stripes(stride, height - row, bits[Size(stride, row)..])
            == head + bits[Size(stride, row)..Size(stride, row + h)]
               + Stripes(stride, height - (row + h), bits[Size(stride, row + h)..])
  {
    SizeSplit(stride, row, height);
    SizeSplit(stride, row + h, height);
    SizeSplit(stride, h, height - row);
    SizeSplit(stride, row, row + h);
    hide Size;
    var from, to := Size(stride, row), Size(stride, row + h);
    var rest := bits[from..];
    assert rest[..Size(stride, h)] == bits[from..to] && rest[Size(stride, h)..] == bits[to..];
    var head: seq<Byte> := [29, 118, 48, 0, stride, 0, h, 0];
    assert head == Header(stride, h);
  }

  /** Whatever the Windows encoder accepts, the modern one accepts, and the stripes are the same bytes. */
  lemma SameStripes(width: int, height: int, bits: seq<Byte>)
    requires AcceptedByWindows(width, height, bits)
    ensures Accepted(width, height, bits)
    ensures Stripes(Stride(width), height, bits) == Stripes(width / 8, height, bits)
  {
    assert Stride(width) == width / 8;
  }

  // ----- the reader -----

  datatype Image = Image(stride: nat, height: nat, bits: seq<Byte>, rest: seq<Byte>)

  predicate StartsStripe(data: seq<Byte>) {
    |data| >= 8 && data[..4] == [0x1d, 0x76, 0x30, 0]
  }

  function StripeStride(data: seq<Byte>): nat
    requires |data| >= 8
  {
    data[4] as int + 256 * (data[5] as int)
  }

  function StripeRows(data: seq<Byte>): nat
    requires |data| >= 8
  {
    data[6] as int + 256 * (data[7] as int)
  }

  /** Reads stripes for as long as whole ones follow. */
  function Read(data: seq<Byte>): Image
    decreases |data|
  {
    if !StartsStripe(data) then Image(0, 0, [], data)
    else
      var n := Size(StripeStride(data), StripeRows(data));
      if |data| < 8 + n then Image(0, 0, [], data)
      else
        var tail := Read(data[8 + n..]);
        Image(StripeStride(data), StripeRows(data) + tail.height, data[8..8 + n] + tail.bits, tail.rest)
  }

  lemma ReadOne(stride: nat, rows: nat, body: seq<Byte>, tail: seq<Byte>)
    requires stride < 0x1_0000 && rows < 0x1_0000 && |body| == Size(stride, rows)
    ensures var data := Header(stride, rows) + body + tail; var next := Read(tail);
            Read(data) == Image(stride, rows + next.height, body + next.bits, next.rest)
  {
    hide Size;
    var data := Header(stride, rows) + body + tail;
    assert data[..4] == [0x1d, 0x76, 0x30, 0];
    assert StripeStride(data) == stride && StripeRows(data) == rows;
    var n := |body|;
    assert data[8..8 + n] == body && data[8 + n..] == tail;
  }

  lemma NothingWritten(stride: nat, bits: seq<Byte>, rest: seq<Byte>)
    requires stride < 0x1_0000 && |bits| == Size(stride, 0) && !StartsStripe(rest)
    ensures Read(Stripes(stride, 0, bits) + rest) == Image(0, 0, bits, rest)
  {
    assert Stripes(stride, 0, bits) + rest == rest;
  }

  lemma FirstStripe(stride: nat, height: nat, bits: seq<Byte>, rest: seq<Byte>)
    requires stride < 0x1_0000 && |bits| == Size(stride, height) && height > 0
    ensures var rows := Min(STRIPE, height); Size(stride, rows) <= |bits|
    ensures var rows := Min(STRIPE, height);
            Size(stride, height - rows) == |bits| - Size(stride, rows)
            && Stripes(stride, height, bits) + rest ==
               Header(stride, rows) + bits[..Size(stride, rows)]
               + (Stripes(stride, height - rows, bits[Size(stride, rows)..]) + rest)
  {
    var rows := Min(STRIPE, height);
    SizeSplit(stride, rows, height);
    hide Size, Header;
  }

  /** Reading back what was written gives the rows and bits, and leaves what follows untouched. */
  lemma {:induction false} RoundTrip(stride: nat, height: nat, bits: seq<Byte>, rest: seq<Byte>)
    requires stride < 0x1_0000 && |bits| == Size(stride, height) && !StartsStripe(rest)
    ensures Read(Stripes(stride, height, bits) + rest)
            == Image(if height == 0 then 0 else stride, height, bits, rest)
    decreases height
  {
    hide Size, Stripes, Read, Header, StartsStripe;
    if height == 0 {
      NothingWritten(stride, bits, rest);
    } else {
      var rows := Min(STRIPE, height);
      SizeSplit(stride, rows, height);
      var body, more := bits[..Size(stride, rows)], bits[Size(stride, rows)..];
      var tail := Stripes(stride, height - rows, more) + rest;
      FirstStripe(stride, height, bits, rest);
      RoundTrip(stride, height - rows, more, rest);
      ReadOne(stride, rows, body, tail);
      assert body + more == bits;
    }
  }

  /**
   A reader recovers height and bits of every accepted bitmap.  The width itself is only written
   in bytes, so it comes back exactly when it is a multiple of eight.
   */
  lemma EncoderRoundTrip(width: int, height: int, bits: seq<Byte>, rest: seq<Byte>)
    requires Accepted(width, height, bits) && !StartsStripe(rest)
    ensures var image := Read(Stripes(Stride(width), height, bits) + rest);
      && image == Image(Stride(width), height, bits, rest)
      && (8 * image.stride == width <==> width % 8 == 0)
  {
    hide Read, Stripes, StartsStripe, Size;
    RoundTrip(Stride(width), height, bits, rest);
  }

  /** One row of eight dots, byte for byte. */
  lemma OneRow(dots: Byte)
    ensures Stripes(1, 1, [dots]) == [0x1d, 0x76, 0x30, 0, 1, 0, 1, 0, dots]
  {
    assert Size(1, 1) == 1 && Size(1, 0) == 0;
    assert [dots][..1] == [dots] && [dots][1..] == [];
  }
}
