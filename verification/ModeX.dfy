/** The scrolling mode X display (mp2/modex.c): a build buffer that caches a
    320x182 window of a larger logical picture in four byte planes, and the
    double-buffered video memory that the window is copied to. */
module ModeX {
  import opened Photo

  const SCROLL_X_WIDTH := 80
  const SCROLL_SIZE := SCROLL_X_WIDTH * SCROLL_Y_DIM
  const SCREEN_SIZE := SCROLL_SIZE * 4 + 1
  const BUILD_BUF_SIZE := SCREEN_SIZE + 20000
  const BUILD_BASE_INIT := (BUILD_BUF_SIZE - SCREEN_SIZE) / 2
  const STATUS_BAR_SIZE := 1440
  const PLANE_SIZE := 65536

  // ----- the plane map -----

  /** Where the build buffer keeps logical pixel (x, y) when the upper left
      pixel of the logical picture is at offset off. */
  function Addr(off: int, x: int, y: int): int {
    off + x / 4 + SCROLL_X_WIDTH * y + (3 - x % 4) * SCROLL_SIZE
  }

  /** (x, y) lies in the window whose upper left pixel is (wx, wy). */
  predicate InWindow(wx: int, wy: int, x: int, y: int) {
    wx <= x < wx + SCROLL_X_DIM && wy <= y < wy + SCROLL_Y_DIM
  }

  /** The test that set_view_window makes before it moves anything. */
  predicate Fits(off: int, wx: int, wy: int) {
    && off + wx / 4 + wy * SCROLL_X_WIDTH >= 0
    && off + 3 * SCROLL_SIZE + (wx + SCROLL_X_DIM - 1) / 4 + (wy + SCROLL_Y_DIM - 1) * SCROLL_X_WIDTH < BUILD_BUF_SIZE
  }

  /** All pixels of a window live in SCREEN_SIZE consecutive bytes, which lie in
      the build buffer whenever the window passes the test. */
  lemma PlanesSpanOneScreen(off: int, wx: int, wy: int, x: int, y: int)
    requires InWindow(wx, wy, x, y)
    ensures 0 <= Addr(off, x, y) - (off + wx / 4 + SCROLL_X_WIDTH * wy) < SCREEN_SIZE
    ensures Fits(off, wx, wy) ==> 0 <= Addr(off, x, y) < BUILD_BUF_SIZE
  {
    var p := 3 - x % 4;
    assert p == 0 || p == 1 || p == 2 || p == 3;
    var u := x / 4 - wx / 4;
    assert 0 <= u <= SCROLL_X_WIDTH;
    assert u == SCROLL_X_WIDTH ==> x % 4 < wx % 4;
  }

  /** No two pixels of one window share a byte. */
  lemma PlaneMapInjective(off: int, wx: int, wy: int, x: int, y: int, x': int, y': int)
    requires InWindow(wx, wy, x, y) && InWindow(wx, wy, x', y')
    requires Addr(off, x, y) == Addr(off, x', y')
    ensures x == x' && y == y'
  {
    // Offset of each pixel within the 14560 bytes of its own plane; a plane whose
    // pixels start in the next group of four begins one byte later.
    var r, r' := x % 4, x' % 4;
    var s, s' := if r < wx % 4 then 1 else 0, if r' < wx % 4 then 1 else 0;
    var u, u' := x / 4 - wx / 4 - s, x' / 4 - wx / 4 - s';
    assert 0 <= u < SCROLL_X_WIDTH && 0 <= u' < SCROLL_X_WIDTH;
    var k, k' := u + SCROLL_X_WIDTH * (y - wy), u' + SCROLL_X_WIDTH * (y' - wy);
    PlanesDoNotCollide(wx % 4, k, r, k', r');
    PlanesDoNotCollide(wx % 4, k', r', k, r);
  }

  /** Storing the planes in reverse order keeps the shifted ones clear of the others. */
  lemma PlanesDoNotCollide(align: int, k: int, r: int, k': int, r': int)
    requires 0 <= r < 4 && 0 <= r' < 4 && 0 <= k < SCROLL_SIZE && 0 <= k' < SCROLL_SIZE
    ensures r < r' ==>
      k + (if r < align then 1 else 0) + (3 - r) * SCROLL_SIZE > k' + (if r' < align then 1 else 0) + (3 - r') * SCROLL_SIZE
  {
    if r < r' {
      assert (3 - r) * SCROLL_SIZE >= (3 - r') * SCROLL_SIZE + SCROLL_SIZE;
    }
  }

  /** So writing one window pixel's byte leaves the bytes of all others alone. */
  lemma OtherPixelsElsewhere(off: int, wx: int, wy: int, x: int, y: int)
    requires InWindow(wx, wy, x, y)
    ensures forall u, v | InWindow(wx, wy, u, v) && (u, v) != (x, y) :: Addr(off, u, v) != Addr(off, x, y)
  {
    forall u, v | InWindow(wx, wy, u, v) && (u, v) != (x, y)
      ensures Addr(off, u, v) != Addr(off, x, y)
    {
      if Addr(off, u, v) == Addr(off, x, y) {
        PlaneMapInjective(off, wx, wy, u, v, x, y);
      }
    }
  }

  /** The byte of a window pixel in the contents of the build buffer. */
  ghost function Stored(contents: seq<byte>, off: int, wx: int, wy: int, x: int, y: int): byte
    requires |contents| == BUILD_BUF_SIZE && Fits(off, wx, wy) && InWindow(wx, wy, x, y)
  {
    PlanesSpanOneScreen(off, wx, wy, x, y);
    contents[Addr(off, x, y)]
  }

  /** The window pixels in columns x0..x1 and rows y0..y1 are those of the scene, all others as before. */
  ghost predicate Drawn(now: seq<byte>, before: seq<byte>, off: int, wx: int, wy: int, sc: Scene,
                        x0: int, x1: int, y0: int, y1: int)
    requires |now| == |before| == BUILD_BUF_SIZE && Fits(off, wx, wy) && sc.Valid()
  {
    forall u, v | InWindow(wx, wy, u, v) ::
      Stored(now, off, wx, wy, u, v)
      == if x0 <= u < x1 && y0 <= v < y1 then Pixel(sc, u, v) else Stored(before, off, wx, wy, u, v)
  }

  lemma NothingDrawn(now: seq<byte>, off: int, wx: int, wy: int, sc: Scene, x: int, y: int)
    requires |now| == BUILD_BUF_SIZE && Fits(off, wx, wy) && sc.Valid()
    ensures Drawn(now, now, off, wx, wy, sc, x, x, y, y + 1)
    ensures Drawn(now, now, off, wx, wy, sc, x, x + 1, y, y)
  {
  }

  lemma AllDrawn(now: seq<byte>, before: seq<byte>, off: int, wx: int, wy: int, sc: Scene, x0: int, x1: int, y0: int, y1: int)
    requires |now| == |before| == BUILD_BUF_SIZE && Fits(off, wx, wy) && sc.Valid()
    requires Drawn(now, before, off, wx, wy, sc, x0, x1, y0, y1)
    ensures forall u, v | InWindow(wx, wy, u, v) ::
              Stored(now, off, wx, wy, u, v)
              == if x0 <= u < x1 && y0 <= v < y1 then Pixel(sc, u, v) else Stored(before, off, wx, wy, u, v)
  {
  }

  /** One more pixel to the right of a row, or at the bottom of a column. */
  lemma OneMoreDrawn(now: seq<byte>, before: seq<byte>, off: int, wx: int, wy: int, sc: Scene,
                     x0: int, x1: int, y0: int, y1: int, x: int, y: int)
    requires |now| == |before| == BUILD_BUF_SIZE && Fits(off, wx, wy) && sc.Valid() && InWindow(wx, wy, x, y)
    requires Drawn(now, before, off, wx, wy, sc, x0, x1, y0, y1)
    ensures 0 <= Addr(off, x, y) < BUILD_BUF_SIZE
    ensures var after := now[Addr(off, x, y) := Pixel(sc, x, y)];
            && (x == x1 && x0 <= x && y0 == y && y1 == y + 1 ==>
                  Drawn(after, before, off, wx, wy, sc, x0, x1 + 1, y0, y1))
            && (y == y1 && y0 <= y && x0 == x && x1 == x + 1 ==>
                  Drawn(after, before, off, wx, wy, sc, x0, x1, y0, y1 + 1))
  {
    hide Pixel;
    PlanesSpanOneScreen(off, wx, wy, x, y);
    OtherPixelsElsewhere(off, wx, wy, x, y);
    var after := now[Addr(off, x, y) := Pixel(sc, x, y)];
    forall u, v | InWindow(wx, wy, u, v)
      ensures Stored(after, off, wx, wy, u, v)
           == if (u, v) == (x, y) then Pixel(sc, x, y) else Stored(now, off, wx, wy, u, v)
    {
      PlanesSpanOneScreen(off, wx, wy, u, v);
    }
  }

  /** How many planes lie before that of the pixels in column x; planes are stored in reverse order. */
  function PlaneOf(x: int): (p: int)
    ensures 0 <= p < 4
  {
    3 - x % 4
  }

  /** The plane and address computed for the first pixel of a row. */
  lemma RowStart(off: int, x: int, y: int)
    ensures PlaneOf(x) == 3 - x % 4
    ensures off + x / 4 + y * SCROLL_X_WIDTH + (3 - x % 4) * SCROLL_SIZE == Addr(off, x, y)
  {
  }

  /** The next pixel of a row is in the plane before, or in the last plane and one byte later. */
  lemma StepRight(off: int, x: int, y: int)
    ensures if PlaneOf(x) > 0 then
              PlaneOf(x + 1) == PlaneOf(x) - 1 && Addr(off, x + 1, y) == Addr(off, x, y) - SCROLL_SIZE
            else
              PlaneOf(x + 1) == 3 && Addr(off, x + 1, y) == Addr(off, x, y) + 1 + 3 * SCROLL_SIZE
  {
  }

  /** The byte that show_screen copies to byte row*80+col of display plane i is
      the one that holds pixel (wx + 4*col + i, wy + row), for every alignment of wx. */
  lemma RotationUndoesPlanes(off: int, wx: int, wy: int, i: int, col: int, row: int)
    requires 0 <= i < 4
    ensures Addr(off, wx + 4 * col + i, wy + row)
         == (off + wx / 4 + wy * SCROLL_X_WIDTH)
          + (3 - wx % 4 - i + 4) % 4 * SCROLL_SIZE
          + (if 3 - wx % 4 < i then 1 else 0)
          + (row * SCROLL_X_WIDTH + col)
  {
    var x := wx + 4 * col + i;
    var carry := if 3 - wx % 4 < i then 1 else 0;
    assert x / 4 == wx / 4 + col + carry;
    assert x % 4 == wx % 4 + i - 4 * carry;
    assert 3 - x % 4 == (3 - wx % 4 - i + 4) % 4;
  }

  // ----- the display -----

  class Display {
    const build: array<byte>
    var img3Off: int
    var showX: int
    var showY: int
    /** Video memory: four planes behind each host address. */
    const vmem: array2<byte>
    /** Start address of the displayed page. */
    var targetImg: int

    ghost const Repr: set<object>

    ghost predicate Valid()
      reads this
    {
      && Repr == {this, build, vmem}
      && build.Length == BUILD_BUF_SIZE
      && vmem.Length0 == 4 && vmem.Length1 == PLANE_SIZE
      && Fits(img3Off, showX, showY)
      && (targetImg == 4 * STATUS_BAR_SIZE || targetImg == OtherPage(4 * STATUS_BAR_SIZE))
    }

    /** The cached value of logical pixel (x, y). */
    ghost function Cached(x: int, y: int): byte
      requires Valid() && InWindow(showX, showY, x, y)
      reads this, build
    {
      PlanesSpanOneScreen(img3Off, showX, showY, x, y);
      build[Addr(img3Off, x, y)]
    }

    /** The pixel at column sx and row sy of the page at a video address, as mode X scans it out. */
    ghost function PageAt(page: int, sx: int, sy: int): byte
      requires 0 <= sx < SCROLL_X_DIM && 0 <= sy < SCROLL_Y_DIM
      requires vmem.Length0 == 4 && vmem.Length1 == PLANE_SIZE
      requires page == 4 * STATUS_BAR_SIZE || page == OtherPage(4 * STATUS_BAR_SIZE)
      reads vmem
    {
      vmem[sx % 4, page + sy * SCROLL_X_WIDTH + sx / 4]
    }

    /** What the monitor shows. */
    ghost function Shown(sx: int, sy: int): byte
      requires Valid() && 0 <= sx < SCROLL_X_DIM && 0 <= sy < SCROLL_Y_DIM
      reads this, vmem
    {
      PageAt(targetImg, sx, sy)
    }

    /** The whole window agrees with the scene. */
    ghost predicate Coherent(sc: Scene)
      requires Valid() && sc.Valid()
      reads this, build
    {
      forall x, y | InWindow(showX, showY, x, y) :: Cached(x, y) == Pixel(sc, x, y)
    }

    constructor SetModeX()
      ensures Valid() && fresh(Repr)
      ensures showX == 0 && showY == 0 && img3Off == BUILD_BASE_INIT
    {
      build := new byte[BUILD_BUF_SIZE](_ => 0);
      vmem := new byte[4, PLANE_SIZE]((_, _) => 0);
      showX, showY, img3Off := 0, 0, BUILD_BASE_INIT;
      targetImg := STATUS_BAR_SIZE * 4;
      Repr := {this, build, vmem};
    }

    /** Moves the window.  Every pixel that the old and the new window share keeps
        its cached value, whether or not the contents had to be relocated. */
    method SetViewWindow(scrX: int, scrY: int)
      requires Valid()
      modifies this`img3Off, this`showX, this`showY, build
      ensures Valid() && showX == scrX && showY == scrY
      ensures Fits(old(img3Off), scrX, scrY) ==> img3Off == old(img3Off) && build[..] == old(build[..])
      ensures forall x, y | InWindow(old(showX), old(showY), x, y) && InWindow(scrX, scrY, x, y) ::
                Cached(x, y) == old(Cached(x, y))
    {
      var oldX, oldY := showX, showY;
      showX, showY := scrX, scrY;
      if img3Off + scrX / 4 + scrY * SCROLL_X_WIDTH >= 0 &&
         img3Off + 3 * SCROLL_SIZE + (scrX + SCROLL_X_DIM - 1) / 4 + (scrY + SCROLL_Y_DIM - 1) * SCROLL_X_WIDTH < BUILD_BUF_SIZE {
        return;
      }
      if scrX <= oldX - SCROLL_X_DIM || scrX >= oldX + SCROLL_X_DIM ||
         scrY <= oldY - SCROLL_Y_DIM || scrY >= oldY + SCROLL_Y_DIM {
        img3Off := BUILD_BASE_INIT - scrX / 4 - scrY * SCROLL_X_WIDTH;
        CentreFits(scrX, scrY);
        return;
      }
      var startX, endX, startY, endY;
      if scrX > oldX {
        startX, endX := scrX, oldX;
      } else {
        startX, endX := oldX, scrX;
      }
      endX := endX + SCROLL_X_DIM - 1;
      if scrY > oldY {
        startY, endY := scrY, oldY;
      } else {
        startY, endY := oldY, scrY;
      }
      endY := endY + SCROLL_Y_DIM - 1;

      Relocate(startX, startY, endX, endY);
    }

    /** The last part of set_view_window: moves the shared rectangle, and whatever
        lies between its pixels, to where the new window is in mid-buffer. */
    method Relocate(startX: int, startY: int, endX: int, endY: int)
      requires Repr == {this, build, vmem} && build.Length == BUILD_BUF_SIZE
      requires startX <= endX && startY <= endY
      requires 0 <= img3Off + startX / 4 + startY * SCROLL_X_WIDTH
      requires img3Off + endX / 4 + endY * SCROLL_X_WIDTH + 3 * SCROLL_SIZE < BUILD_BUF_SIZE
      requires showX <= startX && endX <= showX + SCROLL_X_DIM - 1
      requires showY <= startY && endY <= showY + SCROLL_Y_DIM - 1
      modifies this`img3Off, build
      ensures img3Off == BUILD_BASE_INIT - showX / 4 - showY * SCROLL_X_WIDTH
      ensures forall x, y | startX <= x <= endX && startY <= y <= endY ::
                && 0 <= Addr(img3Off, x, y) < BUILD_BUF_SIZE && 0 <= Addr(old(img3Off), x, y) < BUILD_BUF_SIZE
                && build[Addr(img3Off, x, y)] == old(build[..])[Addr(old(img3Off), x, y)]
    {
      var startOff := startX / 4 + startY * SCROLL_X_WIDTH;
      var startAddr := img3Off + startOff;
      var length := endX / 4 + endY * SCROLL_X_WIDTH + 1 - startOff + 3 * SCROLL_SIZE;
      img3Off := BUILD_BASE_INIT - showX / 4 - showY * SCROLL_X_WIDTH;
      var targetAddr := img3Off + startOff;
      CopyWithin(startAddr, targetAddr, length);
      forall x, y | startX <= x <= endX && startY <= y <= endY
        ensures 0 <= Addr(img3Off, x, y) < BUILD_BUF_SIZE && 0 <= Addr(old(img3Off), x, y) < BUILD_BUF_SIZE
        ensures build[Addr(img3Off, x, y)] == old(build[..])[Addr(old(img3Off), x, y)]
      {
        SharedPixelCopied(img3Off, startX, startY, endX, endY, x, y);
        SharedPixelCopied(old(img3Off), startX, startY, endX, endY, x, y);
        assert Addr(img3Off, x, y) - img3Off == Addr(old(img3Off), x, y) - old(img3Off);
      }
    }

    /** The copy loop of set_view_window: the areas may overlap, and the direction
        is chosen so that the copy behaves as if it were simultaneous. */
    method CopyWithin(src: int, dst: int, length: int)
      requires 0 <= length && 0 <= src <= build.Length - length && 0 <= dst <= build.Length - length
      modifies build
      ensures forall k | 0 <= k < build.Length ::
                build[k] == if dst <= k < dst + length then old(build[k - dst + src]) else old(build[k])
    {
      if src < dst {
        var i := length;
        while i > 0
          invariant 0 <= i <= length
          invariant forall k | 0 <= k < build.Length ::
                      build[k] == if dst + i <= k < dst + length then old(build[k - dst + src]) else old(build[k])
        {
          i := i - 1;
          build[dst + i] := build[src + i];
        }
      } else {
        var i := 0;
        while i < length
          invariant 0 <= i <= length
          invariant forall k | 0 <= k < build.Length ::
                      build[k] == if dst <= k < dst + i then old(build[k - dst + src]) else old(build[k])
        {
          build[dst + i] := build[src + i];
          i := i + 1;
        }
      }
    }

    /** Copies the window to the page not on display, then displays that page. */
    method ShowScreen()
      requires Valid()
      modifies this`targetImg, vmem
      ensures Valid() && targetImg == OtherPage(old(targetImg))
      ensures forall sx, sy | 0 <= sx < SCROLL_X_DIM && 0 <= sy < SCROLL_Y_DIM ::
                Shown(sx, sy) == Cached(showX + sx, showY + sy)
      ensures forall sx, sy | 0 <= sx < SCROLL_X_DIM && 0 <= sy < SCROLL_Y_DIM ::
                PageAt(old(targetImg), sx, sy) == old(Shown(sx, sy))
    {
      hide PlaneSource, Addr, Fits;
      var pOff := 3 - showX % 4;
      targetImg := OtherPage(targetImg);
      var addr := img3Off + showX / 4 + showY * SCROLL_X_WIDTH;
      forall p | 0 <= p < 4
        ensures 0 <= PlaneSource(addr, pOff, p) <= BUILD_BUF_SIZE - SCROLL_SIZE
      {
        PlaneSourceInRange(img3Off, showX, showY, p);
      }
      var i := 0;
      while i < 4
        invariant 0 <= i <= 4
        invariant forall p, a | 0 <= p < i && targetImg <= a < targetImg + SCROLL_SIZE ::
                    vmem[p, a] == build[PlaneSource(addr, pOff, p) + (a - targetImg)]
        invariant forall p, a | 0 <= p < 4 && 0 <= a < PLANE_SIZE && !(targetImg <= a < targetImg + SCROLL_SIZE) ::
                    vmem[p, a] == old(vmem[p, a])
        modifies vmem
      {
        CopyImage(PlaneSource(addr, pOff, i), i, targetImg);
        i := i + 1;
      }
      forall sx, sy | 0 <= sx < SCROLL_X_DIM && 0 <= sy < SCROLL_Y_DIM
        ensures Shown(sx, sy) == Cached(showX + sx, showY + sy)
      {
        var k := sy * SCROLL_X_WIDTH + sx / 4;
        PlaneSourceHolds(img3Off, showX, showY, sx, sy);
        assert vmem[sx % 4, targetImg + k] == build[PlaneSource(addr, pOff, sx % 4) + (targetImg + k - targetImg)];
      }
    }

    /** copy_image with the write mask set to one plane. */
    method CopyImage(img: int, plane: int, scrAddr: int)
      requires build.Length == BUILD_BUF_SIZE && vmem.Length0 == 4 && vmem.Length1 == PLANE_SIZE
      requires 0 <= img <= BUILD_BUF_SIZE - SCROLL_SIZE && 0 <= plane < 4 && 0 <= scrAddr <= PLANE_SIZE - SCROLL_SIZE
      modifies vmem
      ensures forall a | scrAddr <= a < scrAddr + SCROLL_SIZE :: vmem[plane, a] == build[img + (a - scrAddr)]
      ensures forall p, a | 0 <= p < 4 && 0 <= a < PLANE_SIZE && !(p == plane && scrAddr <= a < scrAddr + SCROLL_SIZE) ::
                vmem[p, a] == old(vmem[p, a])
    {
      var k := 0;
      while k < SCROLL_SIZE
        invariant 0 <= k <= SCROLL_SIZE
        invariant forall a | scrAddr <= a < scrAddr + k :: vmem[plane, a] == build[img + (a - scrAddr)]
        invariant forall p, a | 0 <= p < 4 && 0 <= a < PLANE_SIZE && !(p == plane && scrAddr <= a < scrAddr + SCROLL_SIZE) ::
                    vmem[p, a] == old(vmem[p, a])
      {
        vmem[plane, scrAddr + k] := build[img + k];
        k := k + 1;
      }
    }

    lemma CachedIsStored()
      requires Valid()
      ensures forall x, y | InWindow(showX, showY, x, y) :: Cached(x, y) == Stored(build[..], img3Off, showX, showY, x, y)
    {
    }

    /** One assignment of a drawing loop, to the address a computed for window pixel (x, y). */
    method WritePixel(x: int, y: int, a: int, v: byte)
      requires Valid() && InWindow(showX, showY, x, y) && a == Addr(img3Off, x, y)
      modifies build
      ensures forall p, q | InWindow(showX, showY, p, q) ::
                Cached(p, q) == if p == x && q == y then v else old(Cached(p, q))
      ensures 0 <= a < BUILD_BUF_SIZE && build[..] == old(build[..])[a := v]
    {
      PlanesSpanOneScreen(img3Off, showX, showY, x, y);
      build[a] := v;
      OtherPixelsElsewhere(img3Off, showX, showY, x, y);
    }

    /** Draws the column x pixels right of the window's left edge; nothing else in the window changes. */
    method DrawVertLine(sc: Scene, x: int) returns (r: int)
      requires Valid() && sc.Valid()
      requires 0 <= x < SCROLL_X_DIM ==> 0 <= showX + x < sc.photo.width
      modifies build
      ensures r == if 0 <= x < SCROLL_X_DIM then 0 else -1
      ensures r == -1 ==> build[..] == old(build[..])
      ensures forall u, v | InWindow(showX, showY, u, v) ::
                Cached(u, v) == if u == showX + x then Pixel(sc, u, v) else old(Cached(u, v))
    {
      hide Drawn, Stored, Pixel, Cached, Fits;
      CachedIsStored();
      if x < 0 || x >= SCROLL_X_DIM {
        return -1;
      }
      var lx := x + showX;
      var buf := new byte[SCROLL_Y_DIM];
      FillVertBuffer(sc, lx, showY, buf);
      var addr := img3Off + lx / 4 + showY * SCROLL_X_WIDTH;
      var pOff := 3 - lx % 4;
      ghost var before := build[..];
      NothingDrawn(before, img3Off, showX, showY, sc, lx, showY);
      var i := 0;
      while i < SCROLL_Y_DIM
        invariant 0 <= i <= SCROLL_Y_DIM
        invariant addr + pOff * SCROLL_SIZE == Addr(img3Off, lx, showY + i)
        invariant forall j | 0 <= j < SCROLL_Y_DIM :: buf[j] == Pixel(sc, lx, showY + j)
        invariant Drawn(build[..], before, img3Off, showX, showY, sc, lx, lx + 1, showY, showY + i)
        modifies build
      {
        OneMoreDrawn(build[..], before, img3Off, showX, showY, sc, lx, lx + 1, showY, showY + i, lx, showY + i);
        WritePixel(lx, showY + i, addr + pOff * SCROLL_SIZE, buf[i]);
        addr := addr + SCROLL_X_WIDTH;
        i := i + 1;
      }
      CachedIsStored();
      AllDrawn(build[..], before, img3Off, showX, showY, sc, lx, lx + 1, showY, showY + SCROLL_Y_DIM);
      return 0;
    }

    /** Draws the row y pixels below the window's top edge; nothing else in the window changes. */
    method DrawHorizLine(sc: Scene, y: int) returns (r: int)
      requires Valid() && sc.Valid()
      requires 0 <= y < SCROLL_Y_DIM ==> 0 <= showY + y < sc.photo.height
      modifies build
      ensures r == if 0 <= y < SCROLL_Y_DIM then 0 else -1
      ensures r == -1 ==> build[..] == old(build[..])
      ensures forall u, v | InWindow(showX, showY, u, v) ::
                Cached(u, v) == if v == showY + y then Pixel(sc, u, v) else old(Cached(u, v))
    {
      hide Drawn, Stored, Pixel, Cached, Fits, PlaneOf, Addr;
      CachedIsStored();
      if y < 0 || y >= SCROLL_Y_DIM {
        return -1;
      }
      var ly := y + showY;
      var buf := new byte[SCROLL_X_DIM];
      FillHorizBuffer(sc, showX, ly, buf);
      var addr := img3Off + showX / 4 + ly * SCROLL_X_WIDTH;
      var pOff := 3 - showX % 4;
      RowStart(img3Off, showX, ly);
      ghost var before := build[..];
      NothingDrawn(before, img3Off, showX, showY, sc, showX, ly);
      var i := 0;
      while i < SCROLL_X_DIM
        invariant 0 <= i <= SCROLL_X_DIM
        invariant pOff == PlaneOf(showX + i)
        invariant addr + pOff * SCROLL_SIZE == Addr(img3Off, showX + i, ly)
        invariant forall j | 0 <= j < SCROLL_X_DIM :: buf[j] == Pixel(sc, showX + j, ly)
        invariant Drawn(build[..], before, img3Off, showX, showY, sc, showX, showX + i, ly, ly + 1)
        modifies build
      {
        OneMoreDrawn(build[..], before, img3Off, showX, showY, sc, showX, showX + i, ly, ly + 1, showX + i, ly);
        WritePixel(showX + i, ly, addr + pOff * SCROLL_SIZE, buf[i]);
        StepRight(img3Off, showX + i, ly);
        pOff := pOff - 1;
        if pOff < 0 {
          pOff := 3;
          addr := addr + 1;
        }
        i := i + 1;
      }
      CachedIsStored();
      AllDrawn(build[..], before, img3Off, showX, showY, sc, showX, showX + SCROLL_X_DIM, ly, ly + 1);
      return 0;
    }
  }

  /** target_img ^= 0x4000, for the two page addresses in use. */
  function OtherPage(page: int): int {
    if page / 0x4000 % 2 == 0 then page + 0x4000 else page - 0x4000
  }

  function PlaneSource(addr: int, pOff: int, i: int): int {
    addr + (pOff - i + 4) % 4 * SCROLL_SIZE + (if pOff < i then 1 else 0)
  }

  /** Every plane that show_screen copies lies inside the build buffer. */
  lemma PlaneSourceInRange(off: int, wx: int, wy: int, i: int)
    requires Fits(off, wx, wy) && 0 <= i < 4
    ensures 0 <= PlaneSource(off + wx / 4 + wy * SCROLL_X_WIDTH, 3 - wx % 4, i) <= BUILD_BUF_SIZE - SCROLL_SIZE
  {
    RotationUndoesPlanes(off, wx, wy, i, 0, 0);
    RotationUndoesPlanes(off, wx, wy, i, 79, 181);
    PlanesSpanOneScreen(off, wx, wy, wx + i, wy);
    PlanesSpanOneScreen(off, wx, wy, wx + 4 * 79 + i, wy + 181);
  }

  /** The byte of a plane's copy that shows screen pixel (sx, sy) is that of the window pixel. */
  lemma PlaneSourceHolds(off: int, wx: int, wy: int, sx: int, sy: int)
    requires 0 <= sx < SCROLL_X_DIM && 0 <= sy < SCROLL_Y_DIM
    ensures 0 <= sy * SCROLL_X_WIDTH + sx / 4 < SCROLL_SIZE
    ensures PlaneSource(off + wx / 4 + wy * SCROLL_X_WIDTH, 3 - wx % 4, sx % 4) + (sy * SCROLL_X_WIDTH + sx / 4)
         == Addr(off, wx + sx, wy + sy)
  {
    RotationUndoesPlanes(off, wx, wy, sx % 4, sx / 4, sy);
    assert wx + 4 * (sx / 4) + sx % 4 == wx + sx;
  }

  /** A window placed in the middle of the buffer passes the test. */
  lemma CentreFits(wx: int, wy: int)
    ensures Fits(BUILD_BASE_INIT - wx / 4 - wy * SCROLL_X_WIDTH, wx, wy)
  {
  }

  /** The copied stretch includes every pixel of the shared rectangle. */
  lemma SharedPixelCopied(off: int, startX: int, startY: int, endX: int, endY: int, x: int, y: int)
    requires startX <= x <= endX && startY <= y <= endY
    ensures off + startX / 4 + startY * SCROLL_X_WIDTH <= Addr(off, x, y)
         <= off + endX / 4 + endY * SCROLL_X_WIDTH + 3 * SCROLL_SIZE
  {
    assert (3 - x % 4) * SCROLL_SIZE <= 3 * SCROLL_SIZE;
    assert x / 4 <= endX / 4;
  }
}
