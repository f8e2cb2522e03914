/** The event loop of the adventure game (mp2/adventure.c) over the world and the
    display, and the simple game that it must look like: one without a build
    buffer, whose screen is always a direct rendering of the current room. */
module Adventure {
  import opened Photo
  import opened ModeX
  import opened WorldTables
  import opened WorldSpec
  import opened World
  import opened WorldRuns
  import opened Typing

  const MOTION_SPEED := 2

  /** The input device's commands; photo motion is named after the key, not after the photo. */
  datatype Cmd =
    | CmdUp | CmdRight | CmdDown | CmdLeft
    | CmdMoveLeft | CmdEnter | CmdMoveRight
    | CmdTyped(text: string) | CmdNone | CmdQuit

  datatype GameEvent = GameEvent(cmd: Cmd, rnd: Rand)

  datatype Condition = GameWon | GameQuit | StillPlaying

  // ----- the simple game -----

  /** game_info together with the world. */
  datatype GameState = GameState(s: State, where: RoomRef, mapX: int, mapY: int, xSpeed: nat, ySpeed: nat)

  function SpriteOf(s: State, o: ObjId): Sprite
    requires s.Shaped()
  {
    Sprite(s.obj[o].x, s.obj[o].y, s.media.images[o])
  }

  function SpritesOf(s: State, q: seq<ObjId>): seq<Sprite>
    requires s.Shaped()
  {
    seq(|q|, i requires 0 <= i < |q| => SpriteOf(s, q[i]))
  }

  /** What there is to draw in a room. */
  function SceneOf(s: State, r: RoomId): (sc: Scene)
    requires s.Shaped()
    ensures sc.Valid()
  {
    Scene(s.media.photos[s.view[r]], SpritesOf(s, s.contents[r]))
  }

  type Frame = seq<seq<byte>>

  /** A picture of the part of a scene whose upper left pixel is (x, y). */
  ghost function Render(sc: Scene, x: int, y: int): Frame
    requires sc.Valid()
  {
    seq(SCROLL_Y_DIM, sy => seq<byte>(SCROLL_X_DIM, sx => Pixel(sc, x + sx, y + sy)))
  }

  ghost predicate PhotosFillScreen(m: Media) {
    forall p | 0 <= p < |m.photos| :: m.photos[p].width >= SCROLL_X_DIM && m.photos[p].height >= SCROLL_Y_DIM
  }

  /** The game is on, and the view lies within the photo of the player's room. */
  ghost predicate Playing(g: GameState) {
    && g.where != NONE && Invariant(g.s, g.where) && PhotosFillScreen(g.s.media)
    && var photo := SceneOf(g.s, g.where).photo;
       0 <= g.mapX && g.mapX + SCROLL_X_DIM <= photo.width && 0 <= g.mapY && g.mapY + SCROLL_Y_DIM <= photo.height
  }

  /** The board and the jetpack speed up panning while they are carried. */
  function Panning(g: GameState, verb: Verb): GameState
    requires g.s.Shaped()
  {
    if verb == VDrop then
      g.(xSpeed := if !g.s.In(O_BOARD, R_INVENTORY) then MOTION_SPEED else g.xSpeed,
         ySpeed := if !g.s.In(O_JETPACK, R_INVENTORY) then MOTION_SPEED else g.ySpeed)
    else if verb == VGet then
      g.(xSpeed := if g.s.In(O_BOARD, R_INVENTORY) then MOTION_SPEED * 3 else g.xSpeed,
         ySpeed := if g.s.In(O_JETPACK, R_INVENTORY) then MOTION_SPEED * 3 else g.ySpeed)
    else g
  }

  /** The game goes on with the view inside the photo, or everything has been accomplished. */
  ghost predicate OnOrWon(g: GameState) {
    if g.where == NONE then g.s.WellFormed() && AllAccomplished(g.s) else Playing(g)
  }

  /** The game with the world and room that an action leaves, before the view is reset for a new room. */
  function Settled(g: GameState, s: State, where: RoomRef, deed: Deed): GameState
    requires s.Shaped()
  {
    var h := g.(s := s, where := where);
    if deed.Typed? then Panning(h, deed.verb) else h
  }

  /** What an action makes of the game; a new room is viewed from its upper left corner. */
  ghost function Followed(g: GameState, o: Outcome, deed: Deed): GameState
    requires o.s.Shaped()
  {
    var d := Settled(g, o.s, o.where, deed);
    if o.action == ChangeRoom then d.(mapX := 0, mapY := 0) else d
  }

  lemma ActionGoesOn(g: GameState, o: Outcome, deed: Deed)
    requires Playing(g) && Invariant(o.s, o.where) && ViewKept(g.s, g.where, o)
    ensures OnOrWon(Followed(g, o, deed))
  {
    hide CarCycle, ItemCycles, Gates, EdgesFixed, AllAccomplished, SpritesOf;
  }

  ghost function After(g: GameState, deed: Deed, rnd: Rand): (h: GameState)
    requires Playing(g)
    ensures OnOrWon(h)
  {
    PerformKeeps(g.s, g.where, deed, rnd);
    OnlyRedrawsChangeTheView(g.s, g.where, deed, rnd);
    ActionGoesOn(g, Perform(g.s, g.where, deed, rnd), deed);
    Followed(g, Perform(g.s, g.where, deed, rnd), deed)
  }

  function Min(a: int, b: int): int { if a > b then b else a }

  datatype MaybeDeed = NoDeed | ADeed(deed: Deed)

  /** The commands that act on the world. */
  function DeedOf(cmd: Cmd): MaybeDeed {
    match cmd
    case CmdMoveLeft => ADeed(GoLeft)
    case CmdEnter => ADeed(GoEnter)
    case CmdMoveRight => ADeed(GoRight)
    case CmdTyped(text) => (var p := Parse(text); if p.Command? then ADeed(Typed(p.verb, p.arg)) else NoDeed)
    case _ => NoDeed
  }

  /** The commands that pan over the photo, as far as its edges. */
  function Panned(g: GameState, cmd: Cmd): GameState
    requires g.s.Shaped() && g.where != NONE
  {
    var photo := SceneOf(g.s, g.where).photo;
    match cmd
    case CmdUp => g.(mapY := g.mapY - Min(g.ySpeed, g.mapY))
    case CmdRight => g.(mapX := g.mapX + Min(g.xSpeed, photo.width - SCROLL_X_DIM - g.mapX))
    case CmdDown => g.(mapY := g.mapY + Min(g.ySpeed, photo.height - SCROLL_Y_DIM - g.mapY))
    case CmdLeft => g.(mapX := g.mapX - Min(g.xSpeed, g.mapX))
    case _ => g
  }

  // ----- photos that do not fill the screen -----

  ghost function PannedAll(g: GameState, cmds: seq<Cmd>): (h: GameState)
    requires g.s.Shaped() && g.where != NONE
    ensures h.s == g.s && h.where == g.where
    decreases |cmds|
  {
    if cmds == [] then g else PannedAll(Panned(g, cmds[0]), cmds[1..])
  }

  /** Where the fill callbacks find a pixel of the photo: they test its column, and not its row. */
  function PixelOffset(photo: Image, x: int, y: int): int {
    photo.width * y + x
  }

  /** What they read for row y lies in the photo. */
  ghost predicate RowInside(photo: Image, y: int) {
    forall x | 0 <= x < photo.width && x < SCROLL_X_DIM :: 0 <= PixelOffset(photo, x, y) < |photo.pixels|
  }

  /** Drawing all the rows of a room just entered stays inside its photo exactly if that is high enough. */
  lemma RowsStayInPhoto(photo: Image)
    requires photo.Valid() && photo.width > 0
    ensures (forall y | 0 <= y < SCROLL_Y_DIM :: RowInside(photo, y)) <==> photo.height >= SCROLL_Y_DIM
  {
    if photo.height >= SCROLL_Y_DIM {
      forall x, y | 0 <= x < photo.width && 0 <= y < SCROLL_Y_DIM
        ensures 0 <= PixelOffset(photo, x, y) < |photo.pixels|
      {
        IndexInRange(photo.width, photo.height, x, y);
      }
    } else {
      var y := photo.height;
      assert PixelOffset(photo, 0, y) == |photo.pixels|;
      assert !RowInside(photo, y);
    }
  }

  /** In a room just entered no sequence of keys pans the view off the photo exactly if the photo
      fills the screen: with a narrower one the right key leads to the left of it, with a lower
      one the down key above it. */
  lemma PansStayInPhoto(g: GameState)
    requires g.s.Shaped() && g.where != NONE && g.mapX == 0 && g.mapY == 0
    ensures var photo := SceneOf(g.s, g.where).photo;
            (forall cmds :: var h := PannedAll(g, cmds); h.mapX >= 0 && h.mapY >= 0)
            <==> photo.width >= SCROLL_X_DIM && photo.height >= SCROLL_Y_DIM
  {
    hide PannedAll;
    var photo := SceneOf(g.s, g.where).photo;
    if photo.width >= SCROLL_X_DIM && photo.height >= SCROLL_Y_DIM {
      forall cmds
        ensures var h := PannedAll(g, cmds); h.mapX >= 0 && h.mapY >= 0
      {
        PansStayInWidePhoto(g, cmds);
      }
    } else {
      OnePan(g, if photo.width < SCROLL_X_DIM then CmdRight else CmdDown);
    }
  }

  lemma OnePan(g: GameState, cmd: Cmd)
    requires g.s.Shaped() && g.where != NONE
    ensures PannedAll(g, [cmd]) == Panned(g, cmd)
  {
    assert [cmd][1..] == [];
    assert PannedAll(Panned(g, cmd), []) == Panned(g, cmd);
  }

  lemma {:induction false} PansStayInWidePhoto(g: GameState, cmds: seq<Cmd>)
    requires g.s.Shaped() && g.where != NONE
    requires var photo := SceneOf(g.s, g.where).photo;
             0 <= g.mapX <= photo.width - SCROLL_X_DIM && 0 <= g.mapY <= photo.height - SCROLL_Y_DIM
    ensures var (photo, h) := (SceneOf(g.s, g.where).photo, PannedAll(g, cmds));
            0 <= h.mapX <= photo.width - SCROLL_X_DIM && 0 <= h.mapY <= photo.height - SCROLL_Y_DIM
    decreases |cmds|
  {
    if cmds != [] {
      PansStayInWidePhoto(Panned(g, cmds[0]), cmds[1..]);
    }
  }

  /** One event of the simple game. */
  ghost function Next(g: GameState, e: GameEvent): (h: GameState)
    requires Playing(g)
    ensures OnOrWon(h)
  {
    var d := DeedOf(e.cmd);
    if d.ADeed? then After(g, d.deed, e.rnd) else Panned(g, e.cmd)
  }

  /** The pictures the simple game shows, and how it ends. */
  ghost function Film(g: GameState, es: seq<GameEvent>): (Condition, seq<Frame>)
    requires Playing(g)
    decreases |es|
  {
    var shown := Render(SceneOf(g.s, g.where), g.mapX, g.mapY);
    if es == [] then (StillPlaying, [shown])
    else if es[0].cmd == CmdQuit then (GameQuit, [shown])
    else
      var h := Next(g, es[0]);
      if h.where == NONE then (GameWon, [shown])
      else
        var (c, rest) := Film(h, es[1..]);
        (c, [shown] + rest)
  }

  /** The first room's photo, like all others, fills the screen. */
  lemma FirstView(m: Media, rnds: seq<Rand>)
    requires m.Valid() && |rnds| == N_OBJECTS && PhotosFillScreen(m)
    ensures Playing(GameState(Built(m, rnds, N_OBJECTS), START_ROOM, 0, 0, MOTION_SPEED, MOTION_SPEED))
  {
    NewGame(m, rnds);
    BuiltWorld(m, rnds, N_OBJECTS);
  }

  // ----- the real game -----

  method ReadDeed(cmd: Cmd) returns (d: MaybeDeed)
    ensures d == DeedOf(cmd)
  {
    hide Parse;
    match cmd
    case CmdMoveLeft => d := ADeed(GoLeft);
    case CmdEnter => d := ADeed(GoEnter);
    case CmdMoveRight => d := ADeed(GoRight);
    case CmdTyped(text) =>
      var p := ParseTyped(text);
      d := if p.Command? then ADeed(Typed(p.verb, p.arg)) else NoDeed;
    case _ => d := NoDeed;
  }

  class Game {
    const world: GameWorld
    const display: Display
    var where: RoomRef
    var mapX: int
    var mapY: int
    var xSpeed: nat
    var ySpeed: nat
    /** The room that the fill callbacks draw, recorded by prep_room. */
    var curRoom: RoomRef

    ghost predicate Valid()
      reads this, world, world.rooms, world.objects, world.swapPhoto, display
    {
      && world.Valid() && display.Valid()
      && this !in world.Repr && this !in display.Repr && world.Repr !! display.Repr
      && world in world.Repr && display in display.Repr
    }

    ghost function Abstract(): GameState
      reads this, world
    {
      GameState(world.state, where, mapX, mapY, xSpeed, ySpeed)
    }

    /** The game is on and the photo callbacks and the view window are those of the game's own room and position. */
    ghost predicate InView()
      reads this, world, world.rooms, world.objects, world.swapPhoto, display
    {
      && Valid() && Playing(Abstract()) && curRoom == where
      && display.showX == mapX && display.showY == mapY
    }

    /** The build buffer holds the current view of the current room. */
    ghost predicate UpToDate()
      reads this, world, world.rooms, world.objects, world.swapPhoto, display, display.build
    {
      InView() && display.Coherent(SceneOf(world.state, where))
    }

    constructor (m: Media, rnds: seq<Rand>)
      requires m.Valid() && |rnds| == N_OBJECTS && PhotosFillScreen(m)
      ensures Valid() && Playing(Abstract())
      ensures Abstract() == GameState(Built(m, rnds, N_OBJECTS), START_ROOM, 0, 0, MOTION_SPEED, MOTION_SPEED)
    {
      world := new GameWorld.BuildWorld(m, rnds);
      display := new Display.SetModeX();
      where, curRoom := START_ROOM, NONE;
      mapX, mapY, xSpeed, ySpeed := 0, 0, MOTION_SPEED, MOTION_SPEED;
      new;
      FirstView(m, rnds);
    }

    /** What the callbacks see: cur_room's photo, and the objects met on the way along its list. */
    method CurrentScene() returns (sc: Scene)
      requires Valid() && curRoom != NONE
      ensures sc == SceneOf(world.state, curRoom)
    {
      hide Mirrors, FlagsMirrored;
      world.RoomMirrored(curRoom);
      ghost var s, q, k := world.state, world.state.contents[curRoom], 0;
      var objs: seq<Sprite> := [];
      var obj := world.rooms[curRoom].contents;
      while obj != NONE
        invariant 0 <= k <= |q| && obj == Link(q, k)
        invariant objs == SpritesOf(s, q[..k])
        decreases |q| - k
      {
        world.ObjectMirrored(curRoom, k);
        assert q[..k + 1] == q[..k] + [q[k]];
        objs := objs + [Sprite(world.objects[obj].x, world.objects[obj].y, world.media.images[obj])];
        obj := world.objects[obj].next;
        k := k + 1;
      }
      assert q[..k] == q;
      sc := Scene(world.media.photos[world.rooms[curRoom].view], objs);
    }

    method RedrawRoom()
      requires InView()
      modifies display.build
      ensures UpToDate()
    {
      hide Invariant, SpritesOf;
      var sc := CurrentScene();
      var i := 0;
      while i < SCROLL_Y_DIM
        invariant 0 <= i <= SCROLL_Y_DIM
        invariant forall x, y | InWindow(mapX, mapY, x, y) && y < mapY + i :: display.Cached(x, y) == Pixel(sc, x, y)
        modifies display.build
      {
        var _ := display.DrawHorizLine(sc, i);
        i := i + 1;
      }
    }

    /** The up key: the view moves up, the photo down. */
    method MovePhotoDown()
      requires UpToDate()
      modifies this`mapY, display, display.build
      ensures UpToDate() && Abstract() == old(Abstract()).(mapY := old(mapY) - Min(ySpeed, old(mapY)))
    {
      hide Invariant, SpritesOf, PhotosFillScreen, Mirrors, FlagsMirrored;
      var delta := if ySpeed > mapY then mapY else ySpeed;
      mapY := mapY - delta;
      display.SetViewWindow(mapX, mapY);
      var sc := CurrentScene();
      var idx := 0;
      while delta > idx
        invariant 0 <= idx <= delta
        invariant forall x, y | InWindow(mapX, mapY, x, y) && (y < mapY + idx || y >= mapY + delta) ::
                    display.Cached(x, y) == Pixel(sc, x, y)
        modifies display.build
      {
        var _ := display.DrawHorizLine(sc, idx);
        idx := idx + 1;
      }
    }

    /** The right key: the view moves right, the photo left. */
    method MovePhotoLeft()
      requires UpToDate()
      modifies this`mapX, display, display.build
      ensures UpToDate()
      ensures Abstract() == old(Abstract()).(
                mapX := old(mapX) + Min(xSpeed, SceneOf(world.state, where).photo.width - SCROLL_X_DIM - old(mapX)))
    {
      hide Invariant, SpritesOf, PhotosFillScreen, FlagsMirrored;
      var delta := world.media.photos[world.rooms[where].view].width - SCROLL_X_DIM - mapX;
      delta := if xSpeed > delta then delta else xSpeed;
      mapX := mapX + delta;
      display.SetViewWindow(mapX, mapY);
      var sc := CurrentScene();
      var idx := 1;
      while delta >= idx
        invariant 1 <= idx <= delta + 1
        invariant forall x, y | InWindow(mapX, mapY, x, y) && (x < mapX + SCROLL_X_DIM - delta || x > mapX + SCROLL_X_DIM - idx) ::
                    display.Cached(x, y) == Pixel(sc, x, y)
        modifies display.build
      {
        var _ := display.DrawVertLine(sc, SCROLL_X_DIM - idx);
        idx := idx + 1;
      }
    }

    /** The left key: the view moves left, the photo right. */
    method MovePhotoRight()
      requires UpToDate()
      modifies this`mapX, display, display.build
      ensures UpToDate() && Abstract() == old(Abstract()).(mapX := old(mapX) - Min(xSpeed, old(mapX)))
    {
      hide Invariant, SpritesOf, PhotosFillScreen, Mirrors, FlagsMirrored;
      var delta := if xSpeed > mapX then mapX else xSpeed;
      mapX := mapX - delta;
      display.SetViewWindow(mapX, mapY);
      var sc := CurrentScene();
      var idx := 0;
      while delta > idx
        invariant 0 <= idx <= delta
        invariant forall x, y | InWindow(mapX, mapY, x, y) && (x < mapX + idx || x >= mapX + delta) ::
                    display.Cached(x, y) == Pixel(sc, x, y)
        modifies display.build
      {
        var _ := display.DrawVertLine(sc, idx);
        idx := idx + 1;
      }
    }

    /** The down key: the view moves down, the photo up. */
    method MovePhotoUp()
      requires UpToDate()
      modifies this`mapY, display, display.build
      ensures UpToDate()
      ensures Abstract() == old(Abstract()).(
                mapY := old(mapY) + Min(ySpeed, SceneOf(world.state, where).photo.height - SCROLL_Y_DIM - old(mapY)))
    {
      hide Invariant, SpritesOf, PhotosFillScreen, FlagsMirrored;
      var delta := world.media.photos[world.rooms[where].view].height - SCROLL_Y_DIM - mapY;
      delta := if ySpeed > delta then delta else ySpeed;
      mapY := mapY + delta;
      display.SetViewWindow(mapX, mapY);
      var sc := CurrentScene();
      var idx := 1;
      while delta >= idx
        invariant 1 <= idx <= delta + 1
        invariant forall x, y | InWindow(mapX, mapY, x, y) && (y < mapY + SCROLL_Y_DIM - delta || y > mapY + SCROLL_Y_DIM - idx) ::
                    display.Cached(x, y) == Pixel(sc, x, y)
        modifies display.build
      {
        var _ := display.DrawHorizLine(sc, SCROLL_Y_DIM - idx);
        idx := idx + 1;
      }
    }

    /** The outcome of an event: either the display already shows the next state of the
        simple game, or the player has entered a room that is still to be drawn. */
    ghost predicate Reached(g: GameState, entered: bool)
      reads this, world, world.rooms, world.objects, world.swapPhoto, display, display.build
    {
      if entered then Valid() && OnOrWon(g) && Abstract().(mapX := 0, mapY := 0) == g
      else UpToDate() && Abstract() == g
    }

    /** A room motion or a typed command, and what its result code asks for. */
    method Act(deed: Deed, rnd: Rand) returns (entered: bool)
      requires UpToDate()
      modifies this, world.Repr, display.build
      ensures Reached(After(old(Abstract()), deed, rnd), entered)
    {
      hide Perform, SpritesOf, CarCycle, ItemCycles, Gates, EdgesFixed, AllAccomplished;
      ghost var g := Abstract();
      OnlyRedrawsChangeTheView(g.s, g.where, deed, rnd);
      var action := Carry(deed, rnd);
      assert OnOrWon(After(g, deed, rnd));
      if action.ChangeRoom? {
        return true;
      }
      if action.RedrawRoom? {
        RedrawRoom();
      } else {
        SameScene(g.s, world.state, where);
      }
      return false;
    }

    /** The command itself; the display is not involved. */
    method Carry(deed: Deed, rnd: Rand) returns (action: Action)
      requires Valid() && Playing(Abstract())
      modifies this`where, this`xSpeed, this`ySpeed, world.Repr
      ensures Valid() && Outcome(world.state, where, action) == Perform(old(world.state), old(where), deed, rnd)
      ensures Abstract() == Settled(old(Abstract()), world.state, where, deed)
    {
      hide Perform, Panning, Mirrors, FlagsMirrored;
      where, action := world.CarryOut(where, deed, rnd);
      if deed.Typed? {
        AdjustPanning(deed.verb);
      }
    }

    /** handle_typing's speed changes after "drop" and "get". */
    method AdjustPanning(verb: Verb)
      requires Valid()
      modifies this`xSpeed, this`ySpeed
      ensures Abstract() == Panning(old(Abstract()), verb)
    {
      if verb == VDrop {
        if world.objects[O_BOARD].loc != R_INVENTORY {
          xSpeed := MOTION_SPEED;
        }
        if world.objects[O_JETPACK].loc != R_INVENTORY {
          ySpeed := MOTION_SPEED;
        }
      }
      if verb == VGet {
        if world.objects[O_BOARD].loc == R_INVENTORY {
          xSpeed := MOTION_SPEED * 3;
        }
        if world.objects[O_JETPACK].loc == R_INVENTORY {
          ySpeed := MOTION_SPEED * 3;
        }
      }
    }

    method Pan(cmd: Cmd)
      requires UpToDate()
      modifies this`mapX, this`mapY, display, display.build
      ensures UpToDate() && Abstract() == Panned(old(Abstract()), cmd)
    {
      hide Invariant, SpritesOf, PhotosFillScreen, Mirrors, FlagsMirrored;
      match cmd
      case CmdUp => MovePhotoDown();
      case CmdRight => MovePhotoLeft();
      case CmdDown => MovePhotoUp();
      case CmdLeft => MovePhotoRight();
      case _ =>
    }

    method HandleEvent(e: GameEvent) returns (entered: bool)
      requires UpToDate()
      modifies this, world.Repr, display, display.build
      ensures Reached(Next(old(Abstract()), e), entered)
    {
      var d := ReadDeed(e.cmd);
      if d.ADeed? {
        entered := Act(d.deed, e.rnd);
      } else {
        Pan(e.cmd);
        entered := false;
      }
    }

    /** The first part of an iteration: a newly entered room is drawn from its upper left corner. */
    method EnterRoom()
      requires Valid() && Playing(Abstract().(mapX := 0, mapY := 0))
      modifies this`mapX, this`mapY, this`curRoom, display, display.build
      ensures UpToDate() && Abstract() == old(Abstract()).(mapX := 0, mapY := 0)
    {
      hide Invariant, SpritesOf, PhotosFillScreen, Mirrors, FlagsMirrored;
      mapX, mapY := 0, 0;
      display.SetViewWindow(mapX, mapY);
      curRoom := where;
      RedrawRoom();
    }

    /** The event loop, up to the end of the events considered: on every pass the monitor
        shows exactly what the simple game shows, and both end the same way. */
    method GameLoop(es: seq<GameEvent>) returns (c: Condition, ghost film: seq<Frame>)
      requires Valid() && Playing(Abstract()) && mapX == 0 && mapY == 0
      modifies this, world.Repr, display.Repr
      ensures (c, film) == Film(old(Abstract()), es)
    {
      hide Invariant, Perform, Render, After, Panned;
      var enterRoom, i := true, 0;
      ghost var g := Abstract();
      film := [];
      assert es[0..] == es && [] + Film(g, es).1 == Film(g, es).1;
      while true
        invariant 0 <= i <= |es| && Playing(g) && Reached(g, enterRoom)
        invariant Prepend(film, Film(g, es[i..])) == Film(old(Abstract()), es)
        decreases |es| - i
      {
        if enterRoom {
          EnterRoom();
          enterRoom := false;
        }
        ghost var shown := Show();
        if i == |es| {
          return StillPlaying, film + [shown];
        }
        if es[i].cmd.CmdQuit? {
          return GameQuit, film + [shown];
        }
        enterRoom := HandleEvent(es[i]);
        if where == NONE {
          return GameWon, film + [shown];
        }
        FilmGoesOn(g, es[i..], film);
        assert es[i..][1..] == es[i + 1..];
        film, g := film + [shown], Next(g, es[i]);
        i := i + 1;
      }
    }

    method Show() returns (ghost shown: Frame)
      requires UpToDate()
      modifies display`targetImg, display.vmem
      ensures UpToDate() && Abstract() == old(Abstract())
      ensures shown == Monitor(display) == Render(SceneOf(world.state, where), mapX, mapY)
    {
      hide Invariant, SpritesOf;
      display.ShowScreen();
      MonitorShows(display, SceneOf(world.state, where));
      shown := Monitor(display);
    }
  }

  lemma PlayersRoom(g: GameState)
    requires Playing(g) || OnOrWon(g)
    ensures g.where != NONE ==> Playing(g) && g.s.Shaped()
    ensures Playing(g) ==> g.where != NONE && g.s.Shaped()
  {
    hide CarCycle, ItemCycles, Gates, EdgesFixed, PhotosFillScreen, AllAccomplished;
  }

  lemma FilmOnce(g: GameState, es: seq<GameEvent>)
    requires Playing(g) && g.where != NONE && g.s.Shaped()
    requires es != [] && es[0].cmd != CmdQuit && Next(g, es[0]).where != NONE && Playing(Next(g, es[0]))
    ensures var rest := Film(Next(g, es[0]), es[1..]);
            Film(g, es) == (rest.0, [Render(SceneOf(g.s, g.where), g.mapX, g.mapY)] + rest.1)
  {
    hide Render, Next, SceneOf, Playing, OnOrWon;
  }

  /** Film unrolled once, behind the pictures already shown. */
  lemma FilmGoesOn(g: GameState, es: seq<GameEvent>, film: seq<Frame>)
    requires Playing(g) && es != [] && es[0].cmd != CmdQuit && Next(g, es[0]).where != NONE
    ensures Prepend(film, Film(g, es))
         == Prepend(film + [Render(SceneOf(g.s, g.where), g.mapX, g.mapY)], Film(Next(g, es[0]), es[1..]))
  {
    hide Film, Render, Next, SceneOf, Playing, OnOrWon;
    PlayersRoom(g);
    PlayersRoom(Next(g, es[0]));
    FilmOnce(g, es);
    var shown, rest := Render(SceneOf(g.s, g.where), g.mapX, g.mapY), Film(Next(g, es[0]), es[1..]);
    assert film + ([shown] + rest.1) == (film + [shown]) + rest.1;
  }

  ghost function Prepend(film: seq<Frame>, rest: (Condition, seq<Frame>)): (Condition, seq<Frame>) {
    (rest.0, film + rest.1)
  }

  /** The picture on the monitor. */
  ghost function Monitor(d: Display): Frame
    requires d.Valid()
    reads d, d.vmem
  {
    seq(SCROLL_Y_DIM, sy requires 0 <= sy < SCROLL_Y_DIM reads d, d.vmem requires d.Valid() =>
      seq<byte>(SCROLL_X_DIM, sx requires 0 <= sx < SCROLL_X_DIM reads d, d.vmem requires d.Valid() => d.Shown(sx, sy)))
  }

  lemma MonitorShows(d: Display, sc: Scene)
    requires d.Valid() && sc.Valid() && d.Coherent(sc)
    requires forall sx, sy | 0 <= sx < SCROLL_X_DIM && 0 <= sy < SCROLL_Y_DIM ::
               d.Shown(sx, sy) == d.Cached(d.showX + sx, d.showY + sy)
    ensures Monitor(d) == Render(sc, d.showX, d.showY)
  {
    forall sy | 0 <= sy < SCROLL_Y_DIM
      ensures Monitor(d)[sy] == Render(sc, d.showX, d.showY)[sy]
    {
      forall sx | 0 <= sx < SCROLL_X_DIM
        ensures Monitor(d)[sy][sx] == Render(sc, d.showX, d.showY)[sy][sx]
      {
        assert InWindow(d.showX, d.showY, d.showX + sx, d.showY + sy);
      }
    }
  }

  lemma SameScene(s: State, t: State, r: RoomId)
    requires s.Shaped() && t == s.(flags := t.flags)
    ensures SceneOf(s, r) == SceneOf(t, r)
  {
    assert SpritesOf(s, s.contents[r]) == SpritesOf(t, t.contents[r]);
  }
}
