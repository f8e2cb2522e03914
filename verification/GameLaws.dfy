/** What the simple game shows and how it answers, told by pixels, places and keys. */
module GameLaws {
  import opened Photo
  import opened WorldTables
  import opened WorldSpec
  import opened WorldRuns
  import opened WorldEffects
  import opened Typing
  import opened Adventure

  // ----- what is in a picture -----

  /** The object has a visible pixel at (x, y) of the room: its image begins at the object's position. */
  ghost predicate Covers(s: State, o: ObjId, x: int, y: int)
    requires s.Shaped()
  {
    var (image, i, j) := (s.media.images[o], x - s.obj[o].x, y - s.obj[o].y);
    0 <= i < image.width && 0 <= j < image.height && image.At(i, j) != OBJ_CLR_TRANSP
  }

  /** An object is seen where it lies: its pixel (i, j) is that many columns and rows from its position,
      unless an object later in the room's list covers it. */
  lemma ObjectsAppear(s: State, r: RoomId, k: nat, i: int, j: int)
    requires s.Shaped() && k < |s.contents[r]|
    requires var (o, image) := (s.contents[r][k], s.media.images[s.contents[r][k]]);
             && 0 <= i < image.width && 0 <= j < image.height && image.At(i, j) != OBJ_CLR_TRANSP
             && forall m | k < m < |s.contents[r]| :: !Covers(s, s.contents[r][m], s.obj[o].x + i, s.obj[o].y + j)
    ensures var o := s.contents[r][k];
            Pixel(SceneOf(s, r), s.obj[o].x + i, s.obj[o].y + j) == s.media.images[o].At(i, j)
  {
    var (sc, o) := (SceneOf(s, r), s.contents[r][k]);
    assert sc.objs[k].x == s.obj[o].x && sc.objs[k].y == s.obj[o].y && sc.objs[k].img == s.media.images[o];
    TopmostObjectDecides(sc.photo, sc.objs, k, s.obj[o].x + i, s.obj[o].y + j);
  }

  /** Where no object of the room is seen, the photo that the room has at the moment is. */
  lemma PhotoAppears(s: State, r: RoomId, x: int, y: int)
    requires s.Shaped() && forall m | 0 <= m < |s.contents[r]| :: !Covers(s, s.contents[r][m], x, y)
    ensures var photo := s.media.photos[s.view[r]];
            Pixel(SceneOf(s, r), x, y) == if 0 <= x < photo.width && 0 <= y < photo.height then photo.At(x, y) else 0
  {
    var sc := SceneOf(s, r);
    PhotoShowsThrough(sc.photo, sc.objs, x, y);
  }

  // ----- the pictures of a run -----

  /** The game after some events, at most up to its end. */
  ghost function Later(g: GameState, es: seq<GameEvent>): (h: GameState)
    requires Playing(g)
    ensures OnOrWon(h)
    decreases |es|
  {
    if es == [] || es[0].cmd == CmdQuit then g
    else
      var h := Next(g, es[0]);
      if h.where == NONE then h else Later(h, es[1..])
  }

  lemma FilmUnrolled(g: GameState, es: seq<GameEvent>)
    requires Playing(g)
    ensures |Film(g, es).1| >= 1 && Film(g, es).1[0] == Render(SceneOf(g.s, g.where), g.mapX, g.mapY)
    ensures es != [] && es[0].cmd != CmdQuit && Next(g, es[0]).where != NONE ==>
              Film(g, es) == (Film(Next(g, es[0]), es[1..]).0, [Film(g, es).1[0]] + Film(Next(g, es[0]), es[1..]).1)
    ensures es == [] ==> Film(g, es).0 == StillPlaying
    ensures es != [] && es[0].cmd == CmdQuit ==> Film(g, es).0 == GameQuit
    ensures es != [] && es[0].cmd != CmdQuit && Next(g, es[0]).where == NONE ==> Film(g, es).0 == GameWon
    ensures !(es != [] && es[0].cmd != CmdQuit && Next(g, es[0]).where != NONE) ==> |Film(g, es).1| == 1
  {
    hide Render, Next, SceneOf, Invariant;
  }

  /** The n-th picture is the room, from the position of the view, as n events have left them. */
  lemma {:induction false} PictureOf(g: GameState, es: seq<GameEvent>, n: nat)
    requires Playing(g) && n < |Film(g, es).1|
    ensures n <= |es|
    ensures var h := Later(g, es[..n]);
            Playing(h) && Film(g, es).1[n] == Render(SceneOf(h.s, h.where), h.mapX, h.mapY)
    decreases |es|
  {
    hide Film, Render, Next, SceneOf, Playing;
    FilmUnrolled(g, es);
    if n == 0 {
      assert es[..0] == [];
    } else {
      var h := Next(g, es[0]);
      PlayersRoom(h);
      PictureOf(h, es[1..], n - 1);
      assert es[..n][0] == es[0] && es[..n][1..] == es[1..][..n - 1];
    }
  }

  lemma RenderedPixel(sc: Scene, x: int, y: int, sx: int, sy: int)
    requires sc.Valid() && 0 <= sx < SCROLL_X_DIM && 0 <= sy < SCROLL_Y_DIM
    ensures |Render(sc, x, y)| == SCROLL_Y_DIM && |Render(sc, x, y)[sy]| == SCROLL_X_DIM
    ensures Render(sc, x, y)[sy][sx] == Pixel(sc, x + sx, y + sy)
  {
  }

  /** Pixel (i, j) of the k-th object of the player's room has the colour c, is covered by no later
      object, and lies at (sx, sy) of the view. */
  ghost predicate InSight(h: GameState, k: nat, i: int, j: int, c: byte, sx: int, sy: int) {
    && h.where != NONE && h.s.Shaped() && k < |h.s.contents[h.where]| && 0 <= sx < 320 && 0 <= sy < 182
    && var (q, o) := (h.s.contents[h.where], h.s.contents[h.where][k]);
    && var image := h.s.media.images[o];
    && 0 <= i < image.width && 0 <= j < image.height && c == image.At(i, j) != OBJ_CLR_TRANSP
    && h.s.obj[o].x + i == h.mapX + sx && h.s.obj[o].y + j == h.mapY + sy
    && forall m | k < m < |q| :: !Covers(h.s, q[m], h.mapX + sx, h.mapY + sy)
  }

  /** In every picture of every run what is in sight is seen where it lies. */
  lemma PicturesShowObjects(g: GameState, es: seq<GameEvent>, n: nat, k: nat, i: int, j: int, c: byte, sx: int, sy: int)
    requires Playing(g) && n < |Film(g, es).1| && n <= |es| && InSight(Later(g, es[..n]), k, i, j, c, sx, sy)
    ensures |Film(g, es).1[n]| == 182 && |Film(g, es).1[n][sy]| == 320 && Film(g, es).1[n][sy][sx] == c
  {
    hide Film, Later, Render, SceneOf, Playing, Covers;
    PictureOf(g, es, n);
    var h := Later(g, es[..n]);
    ObjectsAppear(h.s, h.where, k, i, j);
    RenderedPixel(SceneOf(h.s, h.where), h.mapX, h.mapY, sx, sy);
  }

  /** And where nothing is, the photo that the room has at the moment. */
  lemma PicturesShowPhoto(g: GameState, es: seq<GameEvent>, n: nat, sx: int, sy: int)
    requires Playing(g) && n < |Film(g, es).1| && n <= |es| && 0 <= sx < 320 && 0 <= sy < 182
    requires var h := Later(g, es[..n]);
             && h.where != NONE && h.s.Shaped()
             && forall m | 0 <= m < |h.s.contents[h.where]| ::
                  !Covers(h.s, h.s.contents[h.where][m], h.mapX + sx, h.mapY + sy)
    ensures var h := Later(g, es[..n]);
            var photo := h.s.media.photos[h.s.view[h.where]];
            && |Film(g, es).1[n]| == 182 && |Film(g, es).1[n][sy]| == 320
            && 0 <= h.mapX + sx < photo.width && 0 <= h.mapY + sy < photo.height
            && Film(g, es).1[n][sy][sx] == photo.At(h.mapX + sx, h.mapY + sy)
  {
    hide Film, Later, Render, Covers;
    PictureOf(g, es, n);
    var h := Later(g, es[..n]);
    PhotoAppears(h.s, h.where, h.mapX + sx, h.mapY + sy);
    RenderedPixel(SceneOf(h.s, h.where), h.mapX, h.mapY, sx, sy);
  }

  // ----- how fast the view moves -----

  /** Two pixels at a time, or six: sideways with the board in hand, up and down with the jetpack. */
  ghost predicate SpeedsFit(g: GameState) {
    && g.s.Shaped()
    && g.xSpeed == (if g.s.obj[O_BOARD].loc == R_INVENTORY then 6 else 2)
    && g.ySpeed == (if g.s.obj[O_JETPACK].loc == R_INVENTORY then 6 else 2)
  }

  ghost predicate HandsEmpty(s: State, t: State)
    requires s.Shaped()
  {
    t.Shaped() && t.obj[O_BOARD] == s.obj[O_BOARD] && t.obj[O_JETPACK] == s.obj[O_JETPACK]
  }

  lemma MotionsMoveNothing(s: State, where: RoomId, deed: Deed, rnd: Rand)
    requires s.WellFormed() && PlayerPlaced(s, where) && !deed.Typed?
    ensures HandsEmpty(s, Perform(s, where, deed, rnd).s)
  {
    hide Perform, State.ListAgrees;
    MotionsLead(s, where, rnd);
    if s.enter[where] == NONE {
      DoorsOpen(s, where, rnd);
    }
  }

  lemma TradesMoveOthers(s: State, where: RoomId, verb: Verb, arg: string, rnd: Rand)
    requires s.WellFormed() && PlayerPlaced(s, where)
    requires verb in {VBuy, VCharge, VDo, VDrink, VFix, VFlash, VGo}
    ensures HandsEmpty(s, Perform(s, where, Typed(verb, arg), rnd).s)
  {
    hide Perform, Same, State.ListAgrees;
    match verb
    case VBuy => BuyDoes(s, where, arg, rnd);
    case VCharge => ChargeDoes(s, where, arg, rnd);
    case VDo => DoDoes(s, where, arg, rnd);
    case VDrink => DrinkDoes(s, where, arg, rnd);
    case VFix => FixDoes(s, where, arg, rnd);
    case VFlash => FlashDoes(s, where, arg, rnd);
    case VGo => GoDoes(s, where, arg, rnd);
  }

  lemma DevicesMoveOthers(s: State, where: RoomId, verb: Verb, arg: string, rnd: Rand)
    requires s.WellFormed() && PlayerPlaced(s, where)
    requires verb in {VInstall, VInventory, VSigh, VUse, VWear}
    ensures HandsEmpty(s, Perform(s, where, Typed(verb, arg), rnd).s)
  {
    hide Perform, Same, State.ListAgrees;
    match verb
    case VInstall =>
      if Same("battery", arg) {
        InstallBatteryDoes(s, where, arg, rnd);
      } else {
        InstallCardDoes(s, where, arg, rnd);
      }
    case VInventory => InventoryDoes(s, where, arg, rnd);
    case VSigh => SighDoes(s, where, arg, rnd);
    case VUse =>
      if Same("car", arg) {
        OpenCarDoes(s, where, arg, rnd);
      } else {
        LureDoes(s, where, arg, rnd);
      }
    case VWear => WearDoes(s, where, arg, rnd);
  }

  /** Only "get" and "drop" move the board and the jetpack. */
  lemma OnlyHandsMove(s: State, where: RoomId, deed: Deed, rnd: Rand)
    requires s.WellFormed() && PlayerPlaced(s, where)
    requires deed.Typed? ==> deed.verb != VGet && deed.verb != VDrop
    ensures HandsEmpty(s, Perform(s, where, deed, rnd).s)
  {
    hide Perform, HandsEmpty, State.WellFormed;
    if !deed.Typed? {
      MotionsMoveNothing(s, where, deed, rnd);
    } else if deed.verb in {VBuy, VCharge, VDo, VDrink, VFix, VFlash, VGo} {
      TradesMoveOthers(s, where, deed.verb, deed.arg, rnd);
    } else {
      DevicesMoveOthers(s, where, deed.verb, deed.arg, rnd);
    }
  }

  /** "get" takes nothing out of the inventory, and "drop" puts nothing into it. */
  lemma HandsMove(s: State, where: RoomId, verb: Verb, arg: string, rnd: Rand, o: ObjId)
    requires s.WellFormed() && PlayerPlaced(s, where) && (verb == VGet || verb == VDrop)
    requires o != O_BATT_CAR
    ensures var t := Perform(s, where, Typed(verb, arg), rnd).s;
            && t.Shaped()
            && (verb == VGet && s.obj[o].loc == R_INVENTORY ==> t.obj[o].loc == R_INVENTORY)
            && (verb == VDrop && s.obj[o].loc != R_INVENTORY ==> t.obj[o].loc != R_INVENTORY)
  {
    hide Perform, Same;
    var at: RoomId := if where == R_INVENTORY then s.enter[R_INVENTORY] else where;
    if verb == VGet {
      GetDoes(s, where, arg, rnd, at);
    } else {
      DropDoes(s, where, arg, rnd, at);
    }
  }

  lemma SpeedsAfter(g: GameState, deed: Deed, rnd: Rand)
    requires Playing(g) && SpeedsFit(g)
    ensures SpeedsFit(After(g, deed, rnd))
  {
    hide Perform, EdgesFixed, CarCycle, ItemCycles, Gates, State.ListAgrees;
    PerformKeeps(g.s, g.where, deed, rnd);
    if deed.Typed? && (deed.verb == VGet || deed.verb == VDrop) {
      HandsMove(g.s, g.where, deed.verb, deed.arg, rnd, O_BOARD);
      HandsMove(g.s, g.where, deed.verb, deed.arg, rnd, O_JETPACK);
    } else {
      OnlyHandsMove(g.s, g.where, deed, rnd);
    }
  }

  lemma SpeedsNext(g: GameState, e: GameEvent)
    requires Playing(g) && SpeedsFit(g)
    ensures SpeedsFit(Next(g, e))
  {
    hide After;
    if DeedOf(e.cmd).ADeed? {
      SpeedsAfter(g, DeedOf(e.cmd).deed, e.rnd);
    }
  }

  /** Over every run the speeds fit what is carried. */
  lemma {:induction false} SpeedsThroughout(g: GameState, es: seq<GameEvent>)
    requires Playing(g) && SpeedsFit(g)
    ensures SpeedsFit(Later(g, es))
    decreases |es|
  {
    hide Next, SpeedsFit, Playing;
    if es != [] && es[0].cmd != CmdQuit {
      var h := Next(g, es[0]);
      SpeedsNext(g, es[0]);
      PlayersRoom(h);
      if h.where != NONE {
        SpeedsThroughout(h, es[1..]);
      }
    }
  }

  /** And they do so at first. */
  lemma SpeedsAtFirst(m: Media, rnds: seq<Rand>)
    requires m.Valid() && |rnds| == N_OBJECTS
    ensures SpeedsFit(GameState(Built(m, rnds, N_OBJECTS), START_ROOM, 0, 0, MOTION_SPEED, MOTION_SPEED))
  {
    BuiltWorld(m, rnds, N_OBJECTS);
  }

  // ----- what the keys do -----

  /** The arrow keys move the view that way and no other, at the present speed or as far as the photo goes. */
  lemma ArrowsPan(g: GameState, rnd: Rand)
    requires Playing(g)
    ensures var (photo, h) := (g.s.media.photos[g.s.view[g.where]], Next(g, GameEvent(CmdRight, rnd)));
            && h == g.(mapX := h.mapX) && h.mapX + 320 <= photo.width
            && (h.mapX == g.mapX + g.xSpeed || (h.mapX + 320 == photo.width && g.mapX <= h.mapX <= g.mapX + g.xSpeed))
    ensures var h := Next(g, GameEvent(CmdLeft, rnd));
            && h == g.(mapX := h.mapX) && h.mapX >= 0
            && (h.mapX == g.mapX - g.xSpeed || (h.mapX == 0 && g.mapX <= g.xSpeed))
    ensures var (photo, h) := (g.s.media.photos[g.s.view[g.where]], Next(g, GameEvent(CmdDown, rnd)));
            && h == g.(mapY := h.mapY) && h.mapY + 182 <= photo.height
            && (h.mapY == g.mapY + g.ySpeed || (h.mapY + 182 == photo.height && g.mapY <= h.mapY <= g.mapY + g.ySpeed))
    ensures var h := Next(g, GameEvent(CmdUp, rnd));
            && h == g.(mapY := h.mapY) && h.mapY >= 0
            && (h.mapY == g.mapY - g.ySpeed || (h.mapY == 0 && g.mapY <= g.ySpeed))
  {
    hide Invariant, PhotosFillScreen, SpritesOf;
  }

  /** The other keys take the player left, right, and in; what is typed and is no command does nothing. */
  lemma KeysAct(g: GameState, e: GameEvent)
    requires Playing(g)
    ensures e.cmd.CmdMoveLeft? ==> Next(g, e).where == if LeftOf(g.where) == NONE then g.where else LeftOf(g.where)
    ensures e.cmd.CmdMoveRight? ==> Next(g, e).where == if RightOf(g.where) == NONE then g.where else RightOf(g.where)
    ensures e.cmd.CmdEnter? && g.s.Shaped() && g.s.enter[g.where] != NONE ==> Next(g, e).where == g.s.enter[g.where]
    ensures e.cmd.CmdNone? || (e.cmd.CmdTyped? && !Parse(e.cmd.text).Command?) ==> Next(g, e) == g
  {
    hide LeftOf, RightOf, Parse, Perform, Panning, SpritesOf, State.ListAgrees, PhotosFillScreen;
    hide EdgesFixed, CarCycle, ItemCycles, Gates;
    MotionsLead(g.s, g.where, e.rnd);
  }

  /** A room that is entered is seen from its upper left corner, and so is one after an action that says
      so; no other action moves the view. */
  lemma RoomsSeenFromCorner(g: GameState, e: GameEvent)
    requires Playing(g) && g.where != NONE && g.s.Shaped() && PlayerPlaced(g.s, g.where)
    ensures var h := Next(g, e); h.where != g.where && h.where != NONE ==> h.mapX == 0 && h.mapY == 0
    ensures var (h, d) := (Next(g, e), DeedOf(e.cmd));
            d.ADeed? ==>
              if Perform(g.s, g.where, d.deed, e.rnd).action == ChangeRoom then h.mapX == 0 && h.mapY == 0
              else h.mapX == g.mapX && h.mapY == g.mapY
  {
    hide Parse, Perform, SpritesOf, State.ListAgrees, PhotosFillScreen, EdgesFixed, CarCycle, ItemCycles, Gates;
    var d := DeedOf(e.cmd);
    if d.ADeed? {
      OnlyRedrawsChangeTheView(g.s, g.where, d.deed, e.rnd);
    }
  }

  /** A typed line is the command with the argument exactly if it says so. */
  lemma LinesAct(line: string, verb: Verb, arg: string)
    ensures DeedOf(CmdTyped(line)) == ADeed(Typed(verb, arg))
            <==> exists lead, word, gap :: Splits(line, lead, word, gap, arg) && Says(word, verb)
  {
    hide Parse, Splits, Says;
    ParsesExactly(line, verb, arg);
  }
}
