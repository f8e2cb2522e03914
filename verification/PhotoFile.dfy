/** The converter that writes room photos and object images from BMP data (mp2/mp2photo.c),
    and the readers that load them into the game (mp2/photo.c). */
module PhotoFile {
  import opened Photo

  const MAX_BMP := 4096
  const HEADER_SIZE := 4

  datatype Option<T> = None | Some(value: T)

  /** Room photos have 5:6:5 RGB words, object images 2:2:2 RGB bytes. */
  datatype Kind = RoomPhoto | ObjectImage {
    /** The length of a file of n pixels. */
    function Length(n: nat): nat {
      if RoomPhoto? then HEADER_SIZE + 2 * n else HEADER_SIZE + n
    }

    function MaxWidth(): nat {
      if RoomPhoto? then MAX_PHOTO_WIDTH else MAX_OBJECT_WIDTH
    }

    function MaxHeight(): nat {
      if RoomPhoto? then MAX_PHOTO_HEIGHT else MAX_OBJECT_HEIGHT
    }
  }

  // ----- bitmaps -----

  /** Bytes in a row of 24-bit pixels, padded to a multiple of four. */
  function RowWidth(width: nat): (bytes: nat)
    ensures bytes % 4 == 0 && 3 * width <= bytes < 3 * width + 4
  {
    4 * ((3 * width + 3) / 4)
  }

  /** A bitmap that passed the converter's checks: rows from bottom to top, pixels as blue, green, red. */
  datatype Bitmap = Bitmap(width: nat, height: nat, data: seq<byte>) {
    ghost predicate Valid() {
      width <= MAX_BMP && height <= MAX_BMP && |data| == RowWidth(width) * height
    }

    /** Channel 0, 1 or 2 (blue, green, red) of a pixel, the bottom row being row 0. */
    function Channel(x: int, row: int, c: int): byte
      requires Valid() && 0 <= x < width && 0 <= row < height && 0 <= c < 3
    {
      ChannelInRange(width, height, x, row, c);
      data[RowWidth(width) * row + 3 * x + c]
    }
  }

  lemma ChannelInRange(width: nat, height: nat, x: int, row: int, c: int)
    requires 0 <= x < width && 0 <= row < height && 0 <= c < 3
    ensures 0 <= RowWidth(width) * row + 3 * x + c < RowWidth(width) * height
  {
    hide RowWidth;
    RowEnds(RowWidth(width), row, height);
  }

  lemma RowEnds(width: nat, row: nat, rows: nat)
    requires row < rows
    ensures 0 <= width * row && width * row + width <= width * rows
  {
    TimesMonotone(row + 1, rows, width);
  }

  lemma TimesMonotone(a: int, b: int, factor: nat)
    requires a <= b
    ensures a * factor <= b * factor
  {
  }

  // ----- colours -----

  /** The top two bits of red, green and blue. */
  function TwoBits(red: byte, green: byte, blue: byte): byte {
    red / 64 * 16 + green / 64 * 4 + blue / 64
  }

  /** What is written for a pixel; the shifts drop bits and the parts do not overlap. */
  function Code(kind: Kind, red: byte, green: byte, blue: byte): (code: int)
    ensures 0 <= code < if kind.RoomPhoto? then 0x10000 else 0x100
  {
    match kind
    case RoomPhoto => red / 8 * 2048 + green / 4 * 32 + blue / 8
    case ObjectImage => if TwoBits(red, green, blue) == 0x3C then OBJ_CLR_TRANSP else TwoBits(red, green, blue)
  }

  /** What the reader makes of it. */
  function Reduced(kind: Kind, code: int): byte
    requires 0 <= code < if kind.RoomPhoto? then 0x10000 else 0x100
  {
    match kind
    case RoomPhoto => code / 16384 * 16 + code / 512 % 4 * 4 + code / 8 % 4
    case ObjectImage => code
  }

  lemma RedPart(r: int, g: int, b: int)
    requires 0 <= r < 32 && 0 <= g < 64 && 0 <= b < 32
    ensures (r * 2048 + g * 32 + b) / 16384 == r / 8
  {
    var high, low := r / 8, r % 8;
    assert r * 2048 + g * 32 + b == high * 16384 + (low * 2048 + g * 32 + b);
  }

  lemma GreenPart(r: int, g: int, b: int)
    requires 0 <= r < 32 && 0 <= g < 64 && 0 <= b < 32
    ensures (r * 2048 + g * 32 + b) / 512 % 4 == g / 16
  {
    var high, low := g / 16, g % 16;
    assert r * 2048 + g * 32 + b == (r * 4 + high) * 512 + (low * 32 + b);
  }

  lemma BluePart(r: int, g: int, b: int)
    requires 0 <= r < 32 && 0 <= g < 64 && 0 <= b < 32
    ensures (r * 2048 + g * 32 + b) / 8 % 4 == b / 8
  {
    var high, low := b / 8, b % 8;
    assert r * 2048 + g * 32 + b == (r * 256 + g * 4 + high) * 8 + low;
  }

  lemma TwiceShifted(v: byte)
    ensures v / 8 / 8 == v / 64 && v / 4 / 16 == v / 64
  {
  }

  /** Reading undoes writing up to the top two bits, but for the colour that means transparent. */
  lemma ReducedCode(kind: Kind, red: byte, green: byte, blue: byte)
    ensures Reduced(kind, Code(kind, red, green, blue))
            == if kind.ObjectImage? && TwoBits(red, green, blue) == 0x3C then OBJ_CLR_TRANSP else TwoBits(red, green, blue)
  {
    if kind.RoomPhoto? {
      RoomPhotoCode(red / 8, green / 4, blue / 8);
      TwiceShifted(red);
      TwiceShifted(green);
      TwiceShifted(blue);
    }
  }

  lemma RoomPhotoCode(r: int, g: int, b: int)
    requires 0 <= r < 32 && 0 <= g < 64 && 0 <= b < 32
    ensures 0 <= r * 2048 + g * 32 + b < 0x10000
    ensures Reduced(RoomPhoto, r * 2048 + g * 32 + b) == r / 8 * 16 + g / 16 * 4 + b / 8
  {
    RedPart(r, g, b);
    GreenPart(r, g, b);
    BluePart(r, g, b);
  }

  // ----- pixel numbers -----

  function Area(width: nat, height: nat): nat {
    width * height
  }

  /** The number of a pixel when rows of the given width follow each other. */
  function Number(width: nat, x: int, y: int): int {
    width * y + x
  }

  function Column(width: nat, k: int): int {
    if width == 0 then 0 else k % width
  }

  function Row(width: nat, k: int): int {
    if width == 0 then 0 else k / width
  }

  lemma NumberSplits(width: nat, height: nat, x: int, y: int)
    requires 0 <= x < width && 0 <= y < height
    ensures 0 <= Number(width, x, y) < Area(width, height)
    ensures Column(width, Number(width, x, y)) == x && Row(width, Number(width, x, y)) == y
  {
    var k := Number(width, x, y);
    TimesMonotone(y + 1, height, width);
    assert k == width * Row(width, k) + Column(width, k);
    SplitOnce(width, y, x, Row(width, k), Column(width, k));
  }

  /** A number has one quotient and one remainder. */
  lemma SplitOnce(width: nat, q: int, r: int, q': int, r': int)
    requires 0 <= r < width && 0 <= r' < width && width * q + r == width * q' + r'
    ensures q == q' && r == r'
  {
    if q < q' {
      TimesMonotone(q + 1, q', width);
    } else if q' < q {
      TimesMonotone(q' + 1, q, width);
    }
  }

  lemma NumberJoins(width: nat, height: nat, k: int)
    requires 0 <= k < Area(width, height)
    ensures 0 <= Column(width, k) < width && 0 <= Row(width, k) < height
    ensures Number(width, Column(width, k), Row(width, k)) == k
  {
    if Row(width, k) >= height {
      TimesMonotone(height, Row(width, k), width);
    }
  }

  /** The pixel in the same column, as many rows from the other end. */
  function Flipped(width: nat, height: nat, k: int): int {
    Number(width, Column(width, k), height - 1 - Row(width, k))
  }

  lemma FlippedTwice(width: nat, height: nat, k: int)
    requires 0 <= k < Area(width, height)
    ensures 0 <= Flipped(width, height, k) < Area(width, height)
    ensures Flipped(width, height, Flipped(width, height, k)) == k
  {
    hide Number, Column, Row;
    NumberJoins(width, height, k);
    NumberSplits(width, height, Column(width, k), height - 1 - Row(width, k));
  }

  // ----- the files -----

  /** A 16-bit number, low byte first. */
  function Word(low: byte, high: byte): (w: int)
    ensures 0 <= w < 0x10000
  {
    low as int + 0x100 * high as int
  }

  /** The header's two numbers. */
  function Width(file: seq<byte>): nat
    requires |file| >= HEADER_SIZE
  {
    Word(file[0], file[1])
  }

  function Height(file: seq<byte>): nat
    requires |file| >= HEADER_SIZE
  {
    Word(file[2], file[3])
  }

  /** Pixel k of a file. */
  function Coded(kind: Kind, file: seq<byte>, k: nat): (code: int)
    requires kind.Length(k + 1) <= |file|
    ensures 0 <= code < if kind.RoomPhoto? then 0x10000 else 0x100
  {
    match kind
    case RoomPhoto => Word(file[HEADER_SIZE + 2 * k], file[HEADER_SIZE + 2 * k + 1])
    case ObjectImage => file[HEADER_SIZE + k]
  }

  /** The file has this header, and n of the bitmap's pixels from the bottom left on. */
  ghost predicate Written(kind: Kind, bmp: Bitmap, file: seq<byte>, n: nat)
    requires bmp.Valid() && n <= Area(bmp.width, bmp.height)
  {
    && |file| == kind.Length(n)
    && Width(file) == bmp.width && Height(file) == bmp.height
    && (forall k | 0 <= k < n :: Coded(kind, file, k) == CodeAt(kind, bmp, k))
  }

  ghost function CodeAt(kind: Kind, bmp: Bitmap, k: int): int
    requires bmp.Valid() && 0 <= k < Area(bmp.width, bmp.height)
  {
    NumberJoins(bmp.width, bmp.height, k);
    var x, row := Column(bmp.width, k), Row(bmp.width, k);
    Code(kind, bmp.Channel(x, row, 2), bmp.Channel(x, row, 1), bmp.Channel(x, row, 0))
  }

  function Bytes(kind: Kind, code: int): (b: seq<byte>)
    requires 0 <= code < if kind.RoomPhoto? then 0x10000 else 0x100
    ensures |b| == kind.Length(1) - HEADER_SIZE
  {
    if kind.RoomPhoto? then [code % 0x100, code / 0x100] else [code]
  }

  lemma OneMoreWritten(kind: Kind, bmp: Bitmap, file: seq<byte>, x: int, row: int)
    requires bmp.Valid() && 0 <= x < bmp.width && 0 <= row < bmp.height
    requires var n := Number(bmp.width, x, row);
             0 <= n < Area(bmp.width, bmp.height) && Written(kind, bmp, file, n)
    ensures var code := Code(kind, bmp.Channel(x, row, 2), bmp.Channel(x, row, 1), bmp.Channel(x, row, 0));
            Written(kind, bmp, file + Bytes(kind, code), Number(bmp.width, x, row) + 1)
  {
    var n := Number(bmp.width, x, row);
    NumberSplits(bmp.width, bmp.height, x, row);
    hide Number, Row, Column, Code;
    var code := Code(kind, bmp.Channel(x, row, 2), bmp.Channel(x, row, 1), bmp.Channel(x, row, 0));
    var longer := file + Bytes(kind, code);
    assert Coded(kind, longer, n) == code;
    forall k | 0 <= k < n
      ensures Coded(kind, longer, k) == CodeAt(kind, bmp, k)
    {
      assert Coded(kind, longer, k) == Coded(kind, file, k);
    }
  }

  method WriteOutputFile(kind: Kind, bmp: Bitmap) returns (out: seq<byte>)
    requires bmp.Valid()
    ensures Written(kind, bmp, out, Area(bmp.width, bmp.height))
  {
    hide Area, Number, Row, Column, Code;
    out := [bmp.width % 0x100, bmp.width / 0x100, bmp.height % 0x100, bmp.height / 0x100];
    Corners(bmp.width, bmp.height, 0);
    var rowWidth := RowWidth(bmp.width);
    var y := 0;
    while y < bmp.height
      invariant y <= bmp.height && 0 <= Number(bmp.width, 0, y) <= Area(bmp.width, bmp.height)
      invariant Written(kind, bmp, out, Number(bmp.width, 0, y))
    {
      var x := 0;
      while x < bmp.width
        invariant x <= bmp.width && 0 <= Number(bmp.width, x, y) <= Area(bmp.width, bmp.height)
        invariant Written(kind, bmp, out, Number(bmp.width, x, y))
      {
        ChannelInRange(bmp.width, bmp.height, x, y, 0);
        ChannelInRange(bmp.width, bmp.height, x, y, 2);
        NumberSplits(bmp.width, bmp.height, x, y);
        var at := rowWidth * y + 3 * x;
        var code := Code(kind, bmp.data[at + 2], bmp.data[at + 1], bmp.data[at]);
        OneMoreWritten(kind, bmp, out, x, y);
        NextNumber(bmp.width, x, y);
        out := out + Bytes(kind, code);
        x := x + 1;
      }
      Corners(bmp.width, bmp.height, y);
      y := y + 1;
    }
    Corners(bmp.width, bmp.height, bmp.height);
  }

  lemma NextNumber(width: nat, x: int, y: int)
    ensures Number(width, x + 1, y) == Number(width, x, y) + 1
  {
  }

  lemma Corners(width: nat, height: nat, y: int)
    requires 0 <= y <= height
    ensures Number(width, 0, 0) == 0 && Number(width, 0, height) == Area(width, height)
    ensures Number(width, width, y) == Number(width, 0, y + 1)
    ensures 0 <= Number(width, 0, y) <= Area(width, height)
  {
    TimesMonotone(0, y, width);
    TimesMonotone(y, height, width);
  }

  lemma ImageIsValid(width: nat, height: nat, pixels: seq<byte>)
    requires |pixels| == Area(width, height)
    ensures Image(width, height, pixels).Valid()
  {
  }

  /** What makes a file readable: a complete header within the limits, and all the pixels it announces. */
  predicate Readable(kind: Kind, file: seq<byte>) {
    && |file| >= HEADER_SIZE && Width(file) <= kind.MaxWidth() && Height(file) <= kind.MaxHeight()
    && |file| >= kind.Length(Area(Width(file), Height(file)))
  }

  /** One row of the readers' loop, or as much of it as there is. */
  method ReadRow(kind: Kind, file: seq<byte>, width: nat, height: nat, img: array<byte>, y: nat) returns (ok: bool)
    requires |file| >= HEADER_SIZE && y < height
    requires AllStored(kind, file, width, height, img[..], Number(width, 0, height - 1 - y))
    modifies img
    ensures ok ==> AllStored(kind, file, width, height, img[..], Number(width, 0, height - y))
    ensures !ok ==> |file| < kind.Length(Area(width, height))
  {
    hide Area, Number, Row, Column, Flipped, AllStored, PixelOf;
    var row := height - 1 - y;
    Corners(width, height, row);
    var x := 0;
    while x < width
      invariant x <= width
      invariant AllStored(kind, file, width, height, img[..], Number(width, x, row))
    {
      NumberSplits(width, height, x, row);
      var read := Number(width, x, row); // the position in the file, in pixels
      if |file| < kind.Length(read + 1) {
        return false;
      }
      StoreOne(kind, file, width, height, img[..], x, y);
      NextNumber(width, x, row);
      img[Number(width, x, y)] := PixelOf(kind, file, read);
      x := x + 1;
    }
    return true;
  }

  /** read_photo and read_obj_image: files that are not readable give nothing; from others, the
      rows come out upside down. */
  method ReadImage(kind: Kind, file: seq<byte>) returns (r: Option<Image>)
    ensures r.Some? <==> Readable(kind, file)
    ensures r.Some? ==>
              && r.value.Valid() && r.value.width == Width(file) && r.value.height == Height(file)
              && forall k | 0 <= k < Area(r.value.width, r.value.height) ::
                   r.value.pixels[k] == PixelOf(kind, file, Flipped(Width(file), Height(file), k))
  {
    hide Area, Number, Row, Column, Flipped, AllStored, PixelOf, Image.Valid, Word;
    if |file| < HEADER_SIZE || kind.MaxWidth() < Width(file) || kind.MaxHeight() < Height(file) {
      return None;
    }
    var width, height := Width(file), Height(file);
    Corners(width, height, 0);
    var img := new byte[Area(width, height)](_ => 0);
    NoneStored(kind, file, width, height, img[..]);
    var y := height;
    while y > 0
      invariant 0 <= y <= height
      invariant AllStored(kind, file, width, height, img[..], Number(width, 0, height - y))
    {
      y := y - 1;
      var ok := ReadRow(kind, file, width, height, img, y);
      if !ok {
        return None;
      }
    }
    Corners(width, height, height);
    AllStoredMeans(kind, file, width, height, img[..]);
    r := Some(Image(width, height, img[..]));
    ImageIsValid(width, height, img[..]);
  }

  function PixelOf(kind: Kind, file: seq<byte>, k: int): byte
    requires |file| >= HEADER_SIZE
  {
    if 0 <= k && kind.Length(k + 1) <= |file| then Reduced(kind, Coded(kind, file, k)) else 0
  }

  /** The file's pixel k has its place in the image. */
  ghost predicate Stored(kind: Kind, file: seq<byte>, width: nat, height: nat, img: seq<byte>, k: int)
    requires |file| >= HEADER_SIZE
  {
    0 <= Flipped(width, height, k) < |img| && img[Flipped(width, height, k)] == PixelOf(kind, file, k)
  }

  /** The file's first n pixels have their places. */
  ghost predicate AllStored(kind: Kind, file: seq<byte>, width: nat, height: nat, img: seq<byte>, n: int)
    requires |file| >= HEADER_SIZE
  {
    && |img| == Area(width, height) && kind.Length(if n < 0 then 0 else n) <= |file|
    && forall k | 0 <= k < n :: Stored(kind, file, width, height, img, k)
  }

  lemma NoneStored(kind: Kind, file: seq<byte>, width: nat, height: nat, img: seq<byte>)
    requires |file| >= HEADER_SIZE && |img| == Area(width, height)
    ensures AllStored(kind, file, width, height, img, 0)
  {
  }

  lemma StoreOne(kind: Kind, file: seq<byte>, width: nat, height: nat, img: seq<byte>, x: int, y: int)
    requires |file| >= HEADER_SIZE && 0 <= x < width && 0 <= y < height
    requires var n := Number(width, x, height - 1 - y);
             n >= 0 && kind.Length(n + 1) <= |file| && AllStored(kind, file, width, height, img, n)
    ensures 0 <= Number(width, x, y) < |img| == Area(width, height)
    ensures var n := Number(width, x, height - 1 - y);
            AllStored(kind, file, width, height, img[Number(width, x, y) := PixelOf(kind, file, n)], n + 1)
  {
    var n := Number(width, x, height - 1 - y);
    NumberSplits(width, height, x, y);
    NumberSplits(width, height, x, height - 1 - y);
    assert Flipped(width, height, n) == Number(width, x, y);
    FlippedTwice(width, height, n);
    hide Flipped, PixelOf, Number;
    var after := img[Number(width, x, y) := PixelOf(kind, file, n)];
    forall k | 0 <= k < n + 1
      ensures Stored(kind, file, width, height, after, k)
    {
      if k < n {
        FlippedTwice(width, height, k);
        assert Stored(kind, file, width, height, img, k);
      }
    }
  }

  lemma AllStoredMeans(kind: Kind, file: seq<byte>, width: nat, height: nat, img: seq<byte>)
    requires |file| >= HEADER_SIZE && AllStored(kind, file, width, height, img, Area(width, height))
    ensures kind.Length(Area(width, height)) <= |file|
    ensures |img| == Area(width, height)
    ensures forall k | 0 <= k < Area(width, height) :: img[k] == PixelOf(kind, file, Flipped(width, height, k))
  {
    hide Flipped, PixelOf;
    forall k | 0 <= k < Area(width, height)
      ensures img[k] == PixelOf(kind, file, Flipped(width, height, k))
    {
      FlippedTwice(width, height, k);
      assert Stored(kind, file, width, height, img, Flipped(width, height, k));
    }
  }

  /** The game shows the bitmap as it is meant to be seen: the bottom row of the file at the bottom,
      each colour cut to its top two bits, and one colour of object images transparent. */
  method Convert(kind: Kind, bmp: Bitmap) returns (r: Option<Image>)
    requires bmp.Valid()
    ensures r.Some? <==> bmp.width <= kind.MaxWidth() && bmp.height <= kind.MaxHeight()
    ensures r.Some? ==>
              && r.value.Valid() && r.value.width == bmp.width && r.value.height == bmp.height
              && forall x, y | 0 <= x < bmp.width && 0 <= y < bmp.height ::
                   var row := bmp.height - 1 - y;
                   var colour := TwoBits(bmp.Channel(x, row, 2), bmp.Channel(x, row, 1), bmp.Channel(x, row, 0));
                   r.value.At(x, y) == if kind.ObjectImage? && colour == 0x3C then OBJ_CLR_TRANSP else colour
  {
    hide Written, Readable, Area, PixelOf, Flipped, TwoBits;
    var file := WriteOutputFile(kind, bmp);
    WrittenReadable(kind, bmp, file);
    r := ReadImage(kind, file);
    if r.Some? {
      forall x, y | 0 <= x < bmp.width && 0 <= y < bmp.height
        ensures r.value.Contains(x, y)
        ensures var row := bmp.height - 1 - y;
                var colour := TwoBits(bmp.Channel(x, row, 2), bmp.Channel(x, row, 1), bmp.Channel(x, row, 0));
                r.value.At(x, y) == if kind.ObjectImage? && colour == 0x3C then OBJ_CLR_TRANSP else colour
      {
        PixelConverted(kind, bmp, file, r.value, x, y);
      }
    }
  }

  lemma WrittenReadable(kind: Kind, bmp: Bitmap, file: seq<byte>)
    requires bmp.Valid() && Written(kind, bmp, file, Area(bmp.width, bmp.height))
    ensures |file| >= HEADER_SIZE && Width(file) == bmp.width && Height(file) == bmp.height
    ensures Readable(kind, file) <==> bmp.width <= kind.MaxWidth() && bmp.height <= kind.MaxHeight()
  {
  }

  lemma PixelConverted(kind: Kind, bmp: Bitmap, file: seq<byte>, img: Image, x: int, y: int)
    requires bmp.Valid() && Written(kind, bmp, file, Area(bmp.width, bmp.height))
    requires img.Valid() && img.width == bmp.width && img.height == bmp.height
    requires forall k | 0 <= k < Area(img.width, img.height) ::
               img.pixels[k] == PixelOf(kind, file, Flipped(img.width, img.height, k))
    requires 0 <= x < bmp.width && 0 <= y < bmp.height
    ensures var row := bmp.height - 1 - y;
            var colour := TwoBits(bmp.Channel(x, row, 2), bmp.Channel(x, row, 1), bmp.Channel(x, row, 0));
            img.At(x, y) == if kind.ObjectImage? && colour == 0x3C then OBJ_CLR_TRANSP else colour
  {
    var row := bmp.height - 1 - y;
    NumberSplits(bmp.width, bmp.height, x, y);
    NumberSplits(bmp.width, bmp.height, x, row);
    var k := Number(bmp.width, x, row);
    assert img.At(x, y) == img.pixels[Number(bmp.width, x, y)] == PixelOf(kind, file, k);
    hide Number, Row, Column, Code, Reduced, TwoBits;
    assert PixelOf(kind, file, k) == Reduced(kind, CodeAt(kind, bmp, k));
    ReducedCode(kind, bmp.Channel(x, row, 2), bmp.Channel(x, row, 1), bmp.Channel(x, row, 0));
  }
}
