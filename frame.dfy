/**
 * The frame buffer of the IS31FL3741 driver: two register pages of LED
 * brightness bytes, addressed either by a flat channel index (SetLed) or by
 * a grid pixel and its three colour intensities (SetPixel).
 */
module Frame {
  import opened Bytes

  /** Number of addressable LED channels, across both pages. */
  const ChannelCount: nat := 357
  /** Channels held by the first page; the rest go to the second page. */
  const FirstPageChannels: nat := 180
  /** Byte lengths of the two page images, command byte included. */
  const FirstLength: nat := 181
  const SecondLength: nat := 178

  /** Physical row of each logical row: rows are not wired in ascending order. */
  const YS: seq<nat> := [8, 5, 4, 3, 2, 1, 0, 7, 6]
  /** The inverse permutation of YS: the logical row wired to each physical row. */
  const RowOf: seq<nat> := [6, 5, 4, 3, 2, 1, 8, 7, 0]

  /** Grid size: columns 0-9 form the first block, 10-12 the second. */
  const Width: nat := 13
  const Height: nat := 9
  /** Channels covered by the grid: 13 x 9 pixels of 3 channels. */
  const GridChannels: nat := 351

  /** Where a flat channel index lives: page image 0 (buffer1) or 1 (buffer2), and the byte position. */
  datatype Location = Location(bank: nat, pos: nat)

  /**
   * Routing of a channel index to a byte of one of the two page images.
   * Position 0 of either image (the command byte) is never a target, and the
   * channel index is recovered from the location (the two images laid end to
   * end, command bytes skipped).
   */
  function Locate(index: nat): (loc: Location)
    requires index < ChannelCount
    ensures loc.bank == 0 ==> 1 <= loc.pos < FirstLength && index == loc.pos - 1
    ensures loc.bank == 1 ==> 1 <= loc.pos < SecondLength && index == FirstPageChannels + loc.pos - 1
    ensures loc.bank < 2 && (loc.bank == 0 <==> index < FirstPageChannels)
  {
    if index < FirstPageChannels then Location(0, index + 1)
    else Location(1, index - FirstPageChannels + 1)
  }

  /** A grid position. */
  datatype Pixel = Pixel(x: nat, y: nat)

  /** The physical row wired to logical row y; a permutation of 0..8. */
  function Row(y: nat): (row: nat)
    requires y < |YS|
    ensures row < Height && RowOf[row] == y
  {
    YS[y]
  }

  /**
   * First of the three channels of pixel (x, y): a stride-10 block for
   * columns 0-9, then a stride-3 block starting at channel 270.
   */
  function PixelOffset(x: nat, y: nat): (offset: nat)
    requires y < |YS|
    ensures offset % 3 == 0
    ensures x < 10 ==> offset + 2 < 270
    ensures 10 <= x < Width ==> 270 <= offset && offset + 2 <= GridChannels - 1
  {
    if x < 10 then (x + 10 * Row(y)) * 3 else (x + 80 + 3 * Row(y)) * 3
  }

  /** The pixel whose three channels include the given one: the inverse of PixelOffset on the grid. */
  function PixelAt(channel: nat): (p: Pixel)
    requires channel < GridChannels
    ensures p.x < Width && p.y < Height
  {
    var q := channel / 3;
    if q < 90 then Pixel(q % 10, RowOf[q / 10])
    else Pixel(10 + (q - 90) % 3, RowOf[(q - 90) / 3])
  }

  /** Odd columns and column 12 carry green first; the others blue first. */
  predicate GreenFirst(x: nat) {
    x % 2 == 1 || x == 12
  }

  /**
   * Which colour each of a pixel's three channels carries (0 red, 1 green,
   * 2 blue): green, red, blue for odd columns and column 12, blue, green,
   * red otherwise, compensating for the wiring of the LED groups. Either way
   * every colour gets exactly one channel.
   */
  function ChannelColours(x: nat): (order: seq<nat>)
    ensures |order| == 3 && {order[0], order[1], order[2]} == {0, 1, 2}
  {
    if GreenFirst(x) then [1, 0, 2] else [2, 1, 0]
  }

  /** The three bytes SetPixel stores for colour (r, g, b) in column x, in channel order. */
  function ColourOrder(x: nat, r: Byte, g: Byte, b: Byte): seq<Byte> {
    if GreenFirst(x) then [g, r, b] else [b, g, r]
  }

  /** Channel i of a pixel carries colour ChannelColours(x)[i] of (r, g, b). */
  lemma ColoursFollowOrder(x: nat, r: Byte, g: Byte, b: Byte)
    ensures |ColourOrder(x, r, g, b)| == 3
    ensures forall i :: 0 <= i < 3 ==> ColourOrder(x, r, g, b)[i] == [r, g, b][ChannelColours(x)[i]]
  {
  }

  /** Every grid pixel's channels are its own: decoding any of its three channels gives the pixel back. */
  lemma PixelAtOffset(x: nat, y: nat, k: nat)
    requires x < Width && y < Height && k < 3
    ensures PixelOffset(x, y) + k < GridChannels
    ensures PixelAt(PixelOffset(x, y) + k) == Pixel(x, y)
  {
    if x < 10 {
      FirstBlockDecode(x, y, k);
    } else {
      SecondBlockDecode(x, y, k);
    }
  }

  lemma FirstBlockDecode(x: nat, y: nat, k: nat)
    requires x < 10 && y < Height && k < 3
    ensures PixelOffset(x, y) + k < 270
    ensures PixelAt(PixelOffset(x, y) + k) == Pixel(x, y)
  {
    var row := Row(y);
    var q := 10 * row + x;
    assert PixelOffset(x, y) + k == 3 * q + k;
    DivMod3(q, k);
    DivMod10(row, x);
    assert q < 90;
  }

  lemma SecondBlockDecode(x: nat, y: nat, k: nat)
    requires 10 <= x < Width && y < Height && k < 3
    ensures 270 <= PixelOffset(x, y) + k < GridChannels
    ensures PixelAt(PixelOffset(x, y) + k) == Pixel(x, y)
  {
    var row := Row(y);
    var q := 90 + (3 * row + (x - 10));
    assert PixelOffset(x, y) + k == 3 * q + k;
    DivMod3(q, k);
    DivMod3(row, x - 10);
  }

  /** Quotient and remainder of 3 * q + k for k < 3. */
  lemma DivMod3(q: nat, k: nat)
    requires k < 3
    ensures (3 * q + k) / 3 == q && (3 * q + k) % 3 == k
  {
  }

  /** Quotient and remainder of 10 * q + k for k < 10. */
  lemma DivMod10(q: nat, k: nat)
    requires k < 10
    ensures (10 * q + k) / 10 == q && (10 * q + k) % 10 == k
  {
  }

  /** Every grid channel belongs to a pixel: the pixel it decodes to covers it. */
  lemma OffsetOfPixelAt(channel: nat)
    requires channel < GridChannels
    ensures var p := PixelAt(channel);
      PixelOffset(p.x, p.y) <= channel < PixelOffset(p.x, p.y) + 3
  {
    var q := channel / 3;
    var p := PixelAt(channel);
    if q < 90 {
      assert Row(p.y) == q / 10 by { RowInverse(q / 10); }
    } else {
      assert Row(p.y) == (q - 90) / 3 by { RowInverse((q - 90) / 3); }
    }
  }

  /** RowOf undoes YS. */
  lemma RowInverse(row: nat)
    requires row < Height
    ensures RowOf[row] < |YS| && YS[RowOf[row]] == row
  {
  }

  /** Distinct grid pixels never share a channel, so SetPixel calls on distinct pixels do not interfere. */
  lemma PixelsDisjoint(p1: Pixel, p2: Pixel, k1: nat, k2: nat)
    requires p1.x < Width && p1.y < Height && p2.x < Width && p2.y < Height
    requires k1 < 3 && k2 < 3
    requires PixelOffset(p1.x, p1.y) + k1 == PixelOffset(p2.x, p2.y) + k2
    ensures p1 == p2 && k1 == k2
  {
    var r1, r2 := Row(p1.y), Row(p2.y);
    if p1.x < 10 && p2.x < 10 {
      var q1, q2 := 10 * r1 + p1.x, 10 * r2 + p2.x;
      assert 3 * q1 + k1 == 3 * q2 + k2;
      DivMod3(q1, k1);
      DivMod3(q2, k2);
      assert q1 == q2 && k1 == k2;
      DivMod10(r1, p1.x);
      DivMod10(r2, p2.x);
      assert r1 == r2 && p1.x == p2.x;
    } else if 10 <= p1.x && 10 <= p2.x {
      var q1, q2 := 3 * r1 + (p1.x - 10), 3 * r2 + (p2.x - 10);
      assert 3 * q1 + k1 == 3 * q2 + k2;
      DivMod3(q1, k1);
      DivMod3(q2, k2);
      assert q1 == q2 && k1 == k2;
      DivMod3(r1, p1.x - 10);
      DivMod3(r2, p2.x - 10);
      assert r1 == r2 && p1.x == p2.x;
    }
    assert p1.y == RowOf[r1] == RowOf[r2] == p2.y;
  }

  /**
   * Column 13 is outside the grid, yet the source does not reject it and the
   * write stays in bounds on every row: on physical rows 0-7 it lands on the
   * channels of the column-10 pixel one physical row down, and on physical
   * row 8 it lands on channels 351-353, past the grid.
   */
  lemma ColumnThirteenAliases(y: nat)
    requires y < Height
    ensures Row(y) < 8 ==> RowOf[Row(y) + 1] < Height && PixelOffset(13, y) == PixelOffset(10, RowOf[Row(y) + 1])
    ensures Row(y) == 8 ==> PixelOffset(13, y) == GridChannels && PixelOffset(13, y) + 2 < ChannelCount
  {
    if Row(y) < 8 {
      RowInverse(Row(y) + 1);
    }
  }

  /**
   * Image of page bank (0 or 1) for a flat channel view: the command byte,
   * then the bank's channels in index order.
   */
  function PageImage(bank: nat, command: Byte, channels: seq<Byte>): (image: seq<Byte>)
    requires bank < 2 && |channels| == ChannelCount
    ensures |image| == (if bank == 0 then FirstLength else SecondLength) && image[0] == command
  {
    if bank == 0 then [command] + channels[..FirstPageChannels] else [command] + channels[FirstPageChannels..]
  }

  /**
   * Storing one channel changes exactly one byte of the two images: the one
   * Locate names, never a command byte; the other image is untouched.
   */
  lemma Routing(command: Byte, channels: seq<Byte>, index: nat, value: Byte)
    requires |channels| == ChannelCount && index < ChannelCount
    ensures var loc := Locate(index);
      PageImage(loc.bank, command, channels[index := value]) == PageImage(loc.bank, command, channels)[loc.pos := value] &&
      PageImage(1 - loc.bank, command, channels[index := value]) == PageImage(1 - loc.bank, command, channels)
  {
    var loc := Locate(index);
    var updated := channels[index := value];
    if loc.bank == 0 {
      assert updated[..FirstPageChannels] == channels[..FirstPageChannels][index := value];
      assert updated[FirstPageChannels..] == channels[FirstPageChannels..];
    } else {
      assert updated[..FirstPageChannels] == channels[..FirstPageChannels];
      assert updated[FirstPageChannels..] == channels[FirstPageChannels..][index - FirstPageChannels := value];
    }
  }

  /**
   * An out-of-range pixel panics before any write: offsets are multiples of
   * 3, and so is 357, so a pixel whose last channel is past the end already
   * has its first channel past the end.
   */
  lemma OutOfRangeFirstChannel(x: nat, y: nat)
    requires y < |YS| && PixelOffset(x, y) + 2 >= ChannelCount
    ensures PixelOffset(x, y) >= ChannelCount
  {
  }

  /** Three successive single-element updates replace a slice of length three. */
  lemma Overwrite3(s: seq<Byte>, o: nat, c: seq<Byte>)
    requires o + 3 <= |s| && |c| == 3
    ensures s[o := c[0]][o + 1 := c[1]][o + 2 := c[2]] == s[..o] + c + s[o + 3..]
  {
  }

  /**
   * The LED frame: two page images, each starting with a reserved command
   * byte that the frame never writes. The ghost field channels is the flat
   * view of the 357 channels in index order: both images laid end to end
   * without their command bytes.
   */
  class LedMatrix {
    const buffer1: array<Byte>
    const buffer2: array<Byte>
    ghost var channels: seq<Byte>

    ghost predicate Valid()
      reads this, buffer1, buffer2
    {
      buffer1.Length == FirstLength && buffer2.Length == SecondLength && buffer1 != buffer2 &&
      |channels| == ChannelCount &&
      (forall i :: 0 <= i < FirstPageChannels ==> channels[i] == buffer1[i + 1]) &&
      (forall i :: FirstPageChannels <= i < ChannelCount ==> channels[i] == buffer2[i - FirstPageChannels + 1])
    }

    /** Where channel index is stored: the byte of the image Locate names. */
    lemma StoredAt(index: nat)
      requires Valid() && index < ChannelCount
      ensures Locate(index).bank == 0 ==> buffer1[Locate(index).pos] == channels[index]
      ensures Locate(index).bank == 1 ==> buffer2[Locate(index).pos] == channels[index]
    {
    }

    /** Each page image is its command byte followed by that page's channels, in index order. */
    lemma Images()
      requires Valid()
      ensures buffer1[..] == PageImage(0, buffer1[0], channels)
      ensures buffer2[..] == PageImage(1, buffer2[0], channels)
    {
      forall i | 1 <= i < FirstLength
        ensures buffer1[..][i] == ([buffer1[0]] + channels[..FirstPageChannels])[i]
      {
        assert channels[i - 1] == buffer1[i];
      }
      forall i | 1 <= i < SecondLength
        ensures buffer2[..][i] == ([buffer2[0]] + channels[FirstPageChannels..])[i]
      {
        assert channels[FirstPageChannels + i - 1] == buffer2[i];
      }
    }

    /** Both command bytes are zero. */
    predicate CommandBytesClear()
      reads this, buffer1, buffer2
      requires Valid()
    {
      buffer1[0] == 0 && buffer2[0] == 0
    }

    constructor ()
      ensures Valid() && fresh(buffer1) && fresh(buffer2)
      ensures buffer1[..] == seq(FirstLength, _ => 0) && buffer2[..] == seq(SecondLength, _ => 0)
      ensures channels == seq(ChannelCount, _ => 0) && CommandBytesClear()
    {
      buffer1 := new Byte[FirstLength](_ => 0);
      buffer2 := new Byte[SecondLength](_ => 0);
      channels := seq(ChannelCount, _ => 0);
    }

    /**
     * Stores value at channel index. With Valid and the unchanged command
     * bytes this fixes both images (Images); by Routing, only the byte
     * Locate names changes.
     */
    method SetLed(index: nat, value: Byte)
      requires Valid() && index < ChannelCount
      modifies this, buffer1, buffer2
      ensures Valid()
      ensures channels == old(channels)[index := value]
      ensures buffer1[0] == old(buffer1[0]) && buffer2[0] == old(buffer2[0])
    {
      if index < FirstPageChannels {
        buffer1[index + 1] := value;
      } else {
        buffer2[index - FirstPageChannels + 1] := value;
      }
      channels := channels[index := value];
    }

    /**
     * Paints pixel (x, y): its three channels receive the colours in the
     * column's order and every other channel and both command bytes keep
     * their values. y must index YS and the last channel must exist, or the
     * source panics.
     */
    method SetPixel(x: Byte, y: Byte, r: Byte, g: Byte, b: Byte)
      requires Valid() && (y as nat) < |YS|
      requires PixelOffset(x as nat, y as nat) + 2 < ChannelCount
      modifies this, buffer1, buffer2
      ensures Valid()
      ensures var o := PixelOffset(x as nat, y as nat);
        channels == old(channels)[..o] + ColourOrder(x as nat, r, g, b) + old(channels)[o + 3..]
      ensures buffer1[0] == old(buffer1[0]) && buffer2[0] == old(buffer2[0])
    {
      var column := x as nat;
      var offset := PixelOffset(column, y as nat);
      if GreenFirst(column) {
        SetLed(offset, g);
        SetLed(offset + 1, r);
        SetLed(offset + 2, b);
      } else {
        SetLed(offset, b);
        SetLed(offset + 1, g);
        SetLed(offset + 2, r);
      }
      Overwrite3(old(channels), offset, ColourOrder(column, r, g, b));
    }
  }
}
