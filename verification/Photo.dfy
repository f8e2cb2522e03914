/** Room photos, object images, and the two line-filling callbacks that the
    mode X code uses to obtain the pixels of a row or a column (mp2/photo.c). */
module Photo {

  type byte = b: int | 0 <= b < 256

  const SCROLL_X_DIM := 320
  const SCROLL_Y_DIM := 182
  const MAX_PHOTO_WIDTH := 1024
  const MAX_PHOTO_HEIGHT := 1024
  const MAX_OBJECT_WIDTH := 160
  const MAX_OBJECT_HEIGHT := 100

  /** Pixel value that object images use for "let the photo show through". */
  const OBJ_CLR_TRANSP := 0x40

  /** Pixels are stored row by row from the upper left, without padding. */
  datatype Image = Image(width: nat, height: nat, pixels: seq<byte>) {
    ghost predicate Valid() {
      |pixels| == width * height
    }

    predicate Contains(x: int, y: int) {
      0 <= x < width && 0 <= y < height
    }

    function At(x: int, y: int): byte
      requires Valid() && Contains(x, y)
    {
      IndexInRange(width, height, x, y);
      pixels[width * y + x]
    }
  }

  /** An object placed in a room: the position of its upper left pixel within the photo. */
  datatype Sprite = Sprite(x: int, y: int, img: Image)

  /** What the fill callbacks see of the current room. */
  datatype Scene = Scene(photo: Image, objs: seq<Sprite>) {
    ghost predicate Valid() {
      photo.Valid() && forall k | 0 <= k < |objs| :: objs[k].img.Valid()
    }
  }

  lemma IndexInRange(w: nat, h: nat, x: int, y: int)
    requires 0 <= x < w && 0 <= y < h
    ensures 0 <= w * y + x < w * h
  {
    assert w * (y + 1) <= w * h;
  }

  lemma PixelIndex(im: Image, x: int, y: int)
    requires im.Valid() && im.Contains(x, y)
    ensures 0 <= im.width * y + x < |im.pixels| && im.pixels[im.width * y + x] == im.At(x, y)
  {
    IndexInRange(im.width, im.height, x, y);
  }

  // ----- the meaning of a pixel -----

  function Background(p: Image, x: int, y: int): byte
    requires p.Valid()
  {
    if p.Contains(x, y) then p.At(x, y) else 0
  }

  /** The object has a visible pixel at photo coordinate (x, y). */
  predicate Shows(o: Sprite, x: int, y: int)
    requires o.img.Valid()
  {
    o.img.Contains(x - o.x, y - o.y) && o.img.At(x - o.x, y - o.y) != OBJ_CLR_TRANSP
  }

  /** The object's pixel where it shows, else what lies under it. */
  function Over(o: Sprite, x: int, y: int, under: byte): byte
    requires o.img.Valid()
  {
    if Shows(o, x, y) then o.img.At(x - o.x, y - o.y) else under
  }

  /** Painter's order: every object is drawn over those before it in the list. */
  function Composite(p: Image, objs: seq<Sprite>, x: int, y: int): byte
    requires p.Valid() && forall k | 0 <= k < |objs| :: objs[k].img.Valid()
  {
    if objs == [] then Background(p, x, y)
    else Over(objs[|objs| - 1], x, y, Composite(p, objs[..|objs| - 1], x, y))
  }

  /** The colour of room coordinate (x, y). */
  function Pixel(sc: Scene, x: int, y: int): byte
    requires sc.Valid()
  {
    Composite(sc.photo, sc.objs, x, y)
  }

  /** A pixel is that of the last object in list order that shows there. */
  lemma {:induction false} TopmostObjectDecides(p: Image, objs: seq<Sprite>, k: nat, x: int, y: int)
    requires p.Valid() && forall j | 0 <= j < |objs| :: objs[j].img.Valid()
    requires k < |objs| && Shows(objs[k], x, y)
    requires forall j | k < j < |objs| :: !Shows(objs[j], x, y)
    ensures Composite(p, objs, x, y) == objs[k].img.At(x - objs[k].x, y - objs[k].y)
  {
    if k < |objs| - 1 {
      TopmostObjectDecides(p, objs[..|objs| - 1], k, x, y);
    }
  }

  /** Where no object shows, the photo does (black beyond its edges). */
  lemma {:induction false} PhotoShowsThrough(p: Image, objs: seq<Sprite>, x: int, y: int)
    requires p.Valid() && forall j | 0 <= j < |objs| :: objs[j].img.Valid()
    requires forall j | 0 <= j < |objs| :: !Shows(objs[j], x, y)
    ensures Composite(p, objs, x, y) == Background(p, x, y)
  {
    if objs != [] {
      PhotoShowsThrough(p, objs[..|objs| - 1], x, y);
    }
  }

  // ----- the callbacks -----

  method FillHorizBuffer(sc: Scene, x: int, y: int, buf: array<byte>)
    requires sc.Valid() && buf.Length == SCROLL_X_DIM
    requires 0 <= y < sc.photo.height
    modifies buf
    ensures forall i | 0 <= i < SCROLL_X_DIM :: buf[i] == Pixel(sc, x + i, y)
  {
    PhotoRow(sc.photo, x, y, buf);
    var n := 0;
    while n < |sc.objs|
      invariant 0 <= n <= |sc.objs|
      invariant forall i | 0 <= i < SCROLL_X_DIM :: buf[i] == Composite(sc.photo, sc.objs[..n], x + i, y)
    {
      assert sc.objs[..n + 1][..n] == sc.objs[..n];
      OverlayRow(sc.objs[n], x, y, buf);
      n := n + 1;
    }
    assert sc.objs[..n] == sc.objs;
  }

  /** The first loop: the photo itself. */
  method PhotoRow(view: Image, x: int, y: int, buf: array<byte>)
    requires view.Valid() && buf.Length == SCROLL_X_DIM
    requires 0 <= y < view.height
    modifies buf
    ensures forall i | 0 <= i < SCROLL_X_DIM :: buf[i] == Background(view, x + i, y)
  {
    var idx := 0;
    while idx < SCROLL_X_DIM
      invariant 0 <= idx <= SCROLL_X_DIM
      invariant forall i | 0 <= i < idx :: buf[i] == Background(view, x + i, y)
    {
      if 0 <= x + idx && view.width > x + idx {
        PixelIndex(view, x + idx, y);
        buf[idx] := view.pixels[view.width * y + x + idx];
      } else {
        buf[idx] := 0;
      }
      idx := idx + 1;
    }
  }

  /** One iteration of the second loop: an object, clipped to the row. */
  method OverlayRow(o: Sprite, x: int, y: int, buf: array<byte>)
    requires o.img.Valid() && buf.Length == SCROLL_X_DIM
    modifies buf
    ensures forall i | 0 <= i < SCROLL_X_DIM :: buf[i] == Over(o, x + i, y, old(buf[i]))
  {
    var img := o.img;
    if y < o.y || y >= o.y + img.height || x + SCROLL_X_DIM <= o.x || x >= o.x + img.width {
      return;
    }
    var yoff := img.width * (y - o.y);
    var idx, imgx;
    if x <= o.x {
      idx, imgx := o.x - x, 0;
    } else {
      idx, imgx := 0, x - o.x;
    }
    while SCROLL_X_DIM > idx && img.width > imgx
      invariant 0 <= idx <= SCROLL_X_DIM && 0 <= imgx <= img.width && x + idx == o.x + imgx
      invariant forall i | 0 <= i < idx :: buf[i] == Over(o, x + i, y, old(buf[i]))
      invariant forall i | idx <= i < SCROLL_X_DIM :: buf[i] == old(buf[i])
      decreases img.width - imgx
    {
      PixelIndex(img, imgx, y - o.y);
      var pixel := img.pixels[yoff + imgx];
      if OBJ_CLR_TRANSP != pixel {
        buf[idx] := pixel;
      }
      idx, imgx := idx + 1, imgx + 1;
    }
  }

  method FillVertBuffer(sc: Scene, x: int, y: int, buf: array<byte>)
    requires sc.Valid() && buf.Length == SCROLL_Y_DIM
    requires 0 <= x < sc.photo.width
    modifies buf
    ensures forall i | 0 <= i < SCROLL_Y_DIM :: buf[i] == Pixel(sc, x, y + i)
  {
    PhotoColumn(sc.photo, x, y, buf);
    var n := 0;
    while n < |sc.objs|
      invariant 0 <= n <= |sc.objs|
      invariant forall i | 0 <= i < SCROLL_Y_DIM :: buf[i] == Composite(sc.photo, sc.objs[..n], x, y + i)
    {
      assert sc.objs[..n + 1][..n] == sc.objs[..n];
      OverlayColumn(sc.objs[n], x, y, buf);
      n := n + 1;
    }
    assert sc.objs[..n] == sc.objs;
  }

  /** The first loop: the photo itself. */
  method PhotoColumn(view: Image, x: int, y: int, buf: array<byte>)
    requires view.Valid() && buf.Length == SCROLL_Y_DIM
    requires 0 <= x < view.width
    modifies buf
    ensures forall i | 0 <= i < SCROLL_Y_DIM :: buf[i] == Background(view, x, y + i)
  {
    var idx := 0;
    while idx < SCROLL_Y_DIM
      invariant 0 <= idx <= SCROLL_Y_DIM
      invariant forall i | 0 <= i < idx :: buf[i] == Background(view, x, y + i)
    {
      if 0 <= y + idx && view.height > y + idx {
        PixelIndex(view, x, y + idx);
        buf[idx] := view.pixels[view.width * (y + idx) + x];
      } else {
        buf[idx] := 0;
      }
      idx := idx + 1;
    }
  }

  /** One iteration of the second loop: an object, clipped to the column. */
  method OverlayColumn(o: Sprite, x: int, y: int, buf: array<byte>)
    requires o.img.Valid() && buf.Length == SCROLL_Y_DIM
    modifies buf
    ensures forall i | 0 <= i < SCROLL_Y_DIM :: buf[i] == Over(o, x, y + i, old(buf[i]))
  {
    var img := o.img;
    if x < o.x || x >= o.x + img.width || y + SCROLL_Y_DIM <= o.y || y >= o.y + img.height {
      return;
    }
    var xoff := x - o.x;
    var idx, imgy;
    if y <= o.y {
      idx, imgy := o.y - y, 0;
    } else {
      idx, imgy := 0, y - o.y;
    }
    while SCROLL_Y_DIM > idx && img.height > imgy
      invariant 0 <= idx <= SCROLL_Y_DIM && 0 <= imgy <= img.height && y + idx == o.y + imgy
      invariant forall i | 0 <= i < idx :: buf[i] == Over(o, x, y + i, old(buf[i]))
      invariant forall i | idx <= i < SCROLL_Y_DIM :: buf[i] == old(buf[i])
      decreases img.height - imgy
    {
      PixelIndex(img, xoff, imgy);
      var pixel := img.pixels[xoff + img.width * imgy];
      if OBJ_CLR_TRANSP != pixel {
        buf[idx] := pixel;
      }
      idx, imgy := idx + 1, imgy + 1;
    }
  }
}
