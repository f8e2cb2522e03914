/** What holds over every run of the adventure: item life cycles, locked regions,
    what winning takes, and when nothing visible changes. */
module WorldRuns {
  import opened WorldTables
  import opened WorldSpec
  import opened Photo

  // ----- effects of the building blocks -----

  /** From s to t only the object o moved, to room r. */
  ghost predicate OnlyMoved(s: State, t: State, o: ObjId, r: RoomRef) {
    && s.WellFormed() && t.WellFormed()
    && t.media == s.media && t.enter == s.enter && t.view == s.view && t.swap == s.swap && t.flags == s.flags
    && t.obj[o].loc == r && (forall p: ObjId | p != o :: t.obj[p] == s.obj[p])
  }

  lemma RemoveMoves(s: State, o: ObjId)
    requires s.WellFormed()
    ensures OnlyMoved(s, Remove(s, o), o, NONE)
  {
    RemoveKeepsLists(s, o);
  }

  lemma InsertMoves(s: State, o: ObjId, r: RoomId, x: nat, y: nat)
    requires s.WellFormed()
    ensures OnlyMoved(s, InsertAt(s, o, r, x, y), o, r)
  {
    InsertKeepsLists(s, o, r, x, y);
  }

  lemma ToInventoryMoves(s: State, o: ObjId, rnd: Rand)
    requires s.WellFormed()
    ensures OnlyMoved(s, ToInventory(s, o, rnd), o, R_INVENTORY)
  {
    var k := FreeSlot(s, 0);
    if k < SLOTS {
      InsertMoves(s, o, R_INVENTORY, SlotX(k), SlotY(k));
    } else {
      InsertMoves(s, o, R_INVENTORY, RandomX(s, o, R_INVENTORY, rnd), RandomY(s, o, R_INVENTORY, rnd));
    }
  }

  lemma {:induction false} FoundByName(q: seq<ObjId>, arg: string)
    ensures FindByName(q, arg) != NONE ==> FindByName(q, arg) in q
  {
    if q != [] && !Same(arg, Name(q[0])) {
      FoundByName(q[1..], arg);
    }
  }

  lemma FoundInRoom(s: State, r: RoomId, arg: string)
    requires s.WellFormed()
    ensures Find(s, r, arg) != NONE ==> s.In(Find(s, r, arg), r)
  {
    assert s.ListAgrees(r);
    FoundByName(s.contents[r], arg);
  }

  // ----- the regions that locks and journeys close off -----

  predicate InCsl(r: RoomRef) { r == R_CSL_LOBBY || r == R_CSL_UPPER || r == R_CSLLOUNGE }

  predicate InBeckman(r: RoomRef) { r == R_BECKLOBBY || r == R_BECK_MRI }

  predicate AtAllerton(r: RoomRef) { r == R_ALLERTON || r == R_FU_DOGS || r == R_STATUE || r == R_SUNSINGER }

  predicate AtWillard(r: RoomRef) { r == R_WILLARD || r == R_WILL_SIDE || r == R_REM_PLANE || r == R_COCKPIT }

  predicate Airborne(r: RoomRef) { r == R_OVER_WILL || r == R_AIR_RIO || r == R_REM_ICE || r == R_REM_LAB }

  // ----- the invariant -----

  /** Only two edges ever change: the inventory's way back and the cockpit's take-off. */
  ghost predicate EdgesFixed(s: State)
    requires s.Shaped()
  {
    && (forall r: RoomId | r != R_INVENTORY && r != R_COCKPIT :: s.enter[r] == InitialEnter(r))
    && (s.enter[R_COCKPIT] == NONE || s.enter[R_COCKPIT] == R_OVER_WILL)
  }

  ghost predicate Exists(s: State, o: ObjId)
    requires s.Shaped()
  {
    s.obj[o].loc != NONE
  }

  /** The car is open but not fixed exactly while one battery exists and the hood is up. */
  ghost predicate CarCycle(s: State)
    requires s.Shaped()
  {
    && (CarFixed in s.flags ==> CarOpen in s.flags)
    && (CarOpen in s.flags <==> !Exists(s, O_CAR_KEY))
    && (s.In(O_BATT_CAR, NONE) || s.In(O_BATT_CAR, R_CAR_SITE))
    && (if CarOpen in s.flags && CarFixed !in s.flags then
          && (Exists(s, O_BATT_CAR) || Exists(s, O_BATT_EMPTY) || Exists(s, O_BATT_FULL))
          && !(Exists(s, O_BATT_CAR) && Exists(s, O_BATT_EMPTY))
          && !(Exists(s, O_BATT_CAR) && Exists(s, O_BATT_FULL))
          && !(Exists(s, O_BATT_EMPTY) && Exists(s, O_BATT_FULL))
          && s.view[R_CAR_SITE] == N_ROOMS + SWAP_CAR && s.swap[SWAP_CAR] == R_CAR_SITE
        else
          && !Exists(s, O_BATT_CAR) && !Exists(s, O_BATT_EMPTY) && !Exists(s, O_BATT_FULL)
          && s.view[R_CAR_SITE] == R_CAR_SITE && s.swap[SWAP_CAR] == N_ROOMS + SWAP_CAR)
  }

  /** Each of the other items that turn into something else is always in exactly one of its forms. */
  ghost predicate ItemCycles(s: State)
    requires s.Shaped()
  {
    && (Exists(s, O_GPS_BAD) <==> !Exists(s, O_GPS_GOOD))
    && (Exists(s, O_GPS_SPEC) <==> !Exists(s, O_GPS_GOOD))
    && (Exists(s, O_ROBOT_DEAD) <==> !Exists(s, O_ROBOT_LIVE))
    && (Exists(s, O_BUNNYSUIT) <==> WearingSuit !in s.flags)
    && (Exists(s, O_FISH) <==> LuredTux !in s.flags)
    && (Exists(s, O_MIMO_CARD) <==> s.enter[R_COCKPIT] == NONE)
    && Exists(s, O_TUX) && Exists(s, O_MP2) && Exists(s, O_ICARD)
  }

  /** What must have happened for the world and the player's room to be as they are. */
  ghost predicate Gates(s: State, at: RoomRef)
    requires s.Shaped()
  {
    && (Exists(s, O_BOOK_C) ==> HasEaten in s.flags)
    && (Exists(s, O_GPS_GOOD) ==> WearingSuit in s.flags)
    && (at == R_IN_CLEANR ==> WearingSuit in s.flags)
    && (InBeckman(at) || Exists(s, O_BATT_FULL) || CarFixed in s.flags ==> Exists(s, O_ROBOT_LIVE))
    && (AtAllerton(at) || !s.In(O_MIMO_CARD, R_STATUE) ==> CarFixed in s.flags && Exists(s, O_GPS_GOOD))
    && (AtWillard(at) || Airborne(at) ==> CarFixed in s.flags)
    && (Airborne(at) || LuredTux in s.flags ==> s.enter[R_COCKPIT] != NONE)
    && (!s.In(O_TUX, R_REM_LAB) ==> LuredTux in s.flags)
  }

  /** Everything the player has to have done by the time the game is won. */
  ghost predicate AllAccomplished(s: State)
    requires s.Shaped()
  {
    && (forall f: Flag :: f in s.flags)
    && Exists(s, O_ROBOT_LIVE) && Exists(s, O_GPS_GOOD) && s.enter[R_COCKPIT] == R_OVER_WILL
  }

  ghost predicate Invariant(s: State, where: RoomRef) {
    && s.WellFormed() && EdgesFixed(s) && CarCycle(s) && ItemCycles(s)
    && (if where == NONE then AllAccomplished(s) && s.In(O_TUX, R_IN_391LAB)
        else PlayerPlaced(s, where) && Gates(s, Standing(s, where)))
  }

  // ----- one action keeps it -----

  lemma ArrivalKeeps(s: State, where: RoomId, r: RoomId, rnd: Rand)
    requires Invariant(s, where) && r != R_INVENTORY && Gates(s, r)
    ensures var o := Arrive(s, r, rnd); Invariant(o.s, o.where) && o.where == r
  {
    SameLists(s, Arrive(s, r, rnd).s);
  }

  /** An edge does not lead into a region from outside it. */
  predicate StaysInRegion(r: RoomId, d: RoomRef) {
    && d != R_INVENTORY && d != R_IN_CLEANR
    && (InBeckman(d) ==> InBeckman(r)) && (InCsl(d) ==> InCsl(r))
    && (AtAllerton(d) ==> AtAllerton(r)) && (AtWillard(d) ==> AtWillard(r) || Airborne(r))
    && (Airborne(d) ==> Airborne(r))
  }

  lemma EdgesStayInRegions(r: RoomId)
    ensures StaysInRegion(r, LeftOf(r))
    ensures StaysInRegion(r, RightOf(r))
    ensures StaysInRegion(r, InitialEnter(r))
  {
    LeftStaysInRegion(r);
    RightStaysInRegion(r);
    EnterStaysInRegion(r);
  }

  lemma LeftStaysInRegion(r: RoomId)
    ensures StaysInRegion(r, LeftOf(r))
  {
  }

  lemma RightStaysInRegion(r: RoomId)
    ensures StaysInRegion(r, RightOf(r))
  {
  }

  lemma EnterStaysInRegion(r: RoomId)
    ensures StaysInRegion(r, InitialEnter(r))
  {
  }

  lemma MoveLeftKeeps(s: State, where: RoomId, rnd: Rand)
    requires Invariant(s, where)
    ensures var o := MoveLeft(s, where, rnd); Invariant(o.s, o.where)
  {
    EdgesStayInRegions(where);
    if LeftOf(where) != NONE {
      ArrivalKeeps(s, where, LeftOf(where), rnd);
    }
  }

  lemma MoveRightKeeps(s: State, where: RoomId, rnd: Rand)
    requires Invariant(s, where)
    ensures var o := MoveRight(s, where, rnd); Invariant(o.s, o.where)
  {
    EdgesStayInRegions(where);
    if RightOf(where) != NONE {
      ArrivalKeeps(s, where, RightOf(where), rnd);
    }
  }

  lemma EnterKeeps(s: State, where: RoomId, rnd: Rand)
    requires Invariant(s, where)
    ensures var o := Enter(s, where, rnd); Invariant(o.s, o.where)
  {
    hide State.ListAgrees, CarCycle, Arrive;
    EdgesStayInRegions(where);
    if s.enter[where] != NONE {
      ArrivalKeeps(s, where, s.enter[where], rnd);
    }
  }

  lemma BuyKeeps(s: State, where: RoomId, arg: string, rnd: Rand)
    requires Invariant(s, where)
    ensures var o := Buy(s, where, arg, rnd); Invariant(o.s, o.where)
  {
    if Same("dew", arg) {
      ToInventoryMoves(s, O_MTN_DEW, rnd);
    } else {
      SameLists(s, s.(flags := s.flags + {HasEaten}));
    }
  }

  lemma DrinkKeeps(s: State, where: RoomId, arg: string)
    requires Invariant(s, where)
    ensures var o := Drink(s, where, arg); Invariant(o.s, o.where)
  {
    hide State.ListAgrees, Remove;
    RemoveMoves(s, O_MTN_DEW);
  }

  lemma SighKeeps(s: State, where: RoomId)
    requires Invariant(s, where)
    ensures var o := Sigh(s, where); Invariant(o.s, o.where)
  {
    SameLists(s, s.(flags := s.flags + {HasEaten}));
  }

  lemma ChargeKeeps(s: State, where: RoomId, arg: string, rnd: Rand)
    requires Invariant(s, where)
    ensures var o := Charge(s, where, arg, rnd); Invariant(o.s, o.where)
  {
    RemoveMoves(s, O_BATT_EMPTY);
    ToInventoryMoves(Remove(s, O_BATT_EMPTY), O_BATT_FULL, rnd);
  }

  lemma DoKeeps(s: State, where: RoomId, arg: string)
    requires Invariant(s, where)
    ensures var o := Do(s, where, arg); Invariant(o.s, o.where)
  {
    if Do(s, where, arg).where == NONE {
      assert HasEaten in s.flags && LuredTux in s.flags && CarFixed in s.flags;
      assert WearingSuit in s.flags && CarOpen in s.flags;
      forall f: Flag
        ensures f in s.flags
      {
        match f { case HasEaten => case WearingSuit => case CarOpen => case CarFixed => case LuredTux => }
      }
    }
  }

  lemma DropKeeps(s: State, where: RoomId, arg: string, rnd: Rand)
    requires Invariant(s, where)
    ensures var o := Drop(s, where, arg, rnd); Invariant(o.s, o.where)
  {
    hide State.ListAgrees, InsertAt;
    FoundInRoom(s, R_INVENTORY, arg);
    var o, at := Find(s, R_INVENTORY, arg), Standing(s, where);
    if o != NONE {
      InsertMoves(s, o, at, RandomX(s, o, at, rnd), RandomY(s, o, at, rnd));
    }
  }

  lemma FixKeeps(s: State, where: RoomId, arg: string, rnd: Rand)
    requires Invariant(s, where)
    ensures var o := Fix(s, where, arg, rnd); Invariant(o.s, o.where)
  {
    var t := Remove(s, O_GPS_BAD);
    RemoveMoves(s, O_GPS_BAD);
    RemoveMoves(t, O_GPS_SPEC);
    ToInventoryMoves(Remove(t, O_GPS_SPEC), O_GPS_GOOD, rnd);
  }

  lemma FlashKeeps(s: State, where: RoomId, arg: string, rnd: Rand)
    requires Invariant(s, where)
    ensures var o := Flash(s, where, arg, rnd); Invariant(o.s, o.where)
  {
    RemoveMoves(s, O_ROBOT_DEAD);
    ToInventoryMoves(Remove(s, O_ROBOT_DEAD), O_ROBOT_LIVE, rnd);
  }

  /** "get" of something that is not part of the car. */
  lemma PickUpKeeps(s: State, where: RoomId, o: ObjId, rnd: Rand)
    requires Invariant(s, where)
    requires s.In(o, Standing(s, where)) || o == O_BOOK_WODE || (o == O_BOOK_C && HasEaten in s.flags)
    requires o != O_BATT_CAR && (o == O_TUX ==> LuredTux in s.flags)
    ensures Invariant(ToInventory(s, o, rnd), where)
  {
    ToInventoryMoves(s, o, rnd);
  }

  lemma TakeBatteryKeeps(s: State, where: RoomId, rnd: Rand)
    requires Invariant(s, where) && s.In(O_BATT_CAR, R_CAR_SITE)
    ensures Invariant(ToInventory(Remove(s, O_BATT_CAR), O_BATT_EMPTY, rnd), where)
  {
    RemoveMoves(s, O_BATT_CAR);
    ToInventoryMoves(Remove(s, O_BATT_CAR), O_BATT_EMPTY, rnd);
  }

  lemma GetKeeps(s: State, where: RoomId, arg: string, rnd: Rand)
    requires Invariant(s, where)
    ensures var o := Get(s, where, arg, rnd); Invariant(o.s, o.where)
  {
    var src := Standing(s, where);
    var sp := SpecialGet(s, src, arg);
    FoundInRoom(s, src, arg);
    var o := if sp.o != NONE then sp.o else Find(s, src, arg);
    if sp.o == O_BATT_EMPTY {
      TakeBatteryKeeps(s, where, rnd);
    } else if o != NONE && (o == O_TUX ==> LuredTux in s.flags) {
      PickUpKeeps(s, where, o, rnd);
    }
  }

  lemma InstallBatteryKeeps(s: State, where: RoomId)
    requires Invariant(s, where)
    ensures var o := Install(s, where, "battery"); Invariant(o.s, o.where)
  {
    hide State.ListAgrees, Remove;
    RemoveMoves(s, O_BATT_FULL);
    var o := Install(s, where, "battery");
    if o.action == ChangeRoom {
      SameLists(Remove(s, O_BATT_FULL), o.s);
    }
  }

  lemma InstallCardKeeps(s: State, where: RoomId)
    requires Invariant(s, where)
    ensures var o := Install(s, where, "mimo"); Invariant(o.s, o.where)
  {
    hide State.ListAgrees, Remove;
    RemoveMoves(s, O_MIMO_CARD);
    var o := Install(s, where, "mimo");
    if o.action == RedrawRoom {
      SameLists(Remove(s, O_MIMO_CARD), o.s);
    }
  }

  lemma InstallKeeps(s: State, where: RoomId, arg: string)
    requires Invariant(s, where)
    ensures var o := Install(s, where, arg); Invariant(o.s, o.where)
  {
    hide Invariant, Remove, SwapPhoto;
    InstallBatteryKeeps(s, where);
    InstallCardKeeps(s, where);
  }

  lemma GoKeeps(s: State, where: RoomId, arg: string)
    requires Invariant(s, where)
    ensures var o := Go(s, where, arg); Invariant(o.s, o.where)
  {
    hide State.ListAgrees, EdgesFixed, CarCycle, ItemCycles;
  }

  lemma InventoryKeeps(s: State, where: RoomId)
    requires Invariant(s, where)
    ensures var o := Inventory(s, where); Invariant(o.s, o.where)
  {
    hide State.ListAgrees;
    SameLists(s, Inventory(s, where).s);
  }

  lemma UseCarKeeps(s: State, where: RoomId, arg: string, rnd: Rand)
    requires Invariant(s, where) && Same("car", arg)
    ensures var o := Use(s, where, arg, rnd); Invariant(o.s, o.where)
  {
    var o := Use(s, where, arg, rnd);
    if o.action == ChangeRoom {
      var t := SwapPhoto(s, where, SWAP_CAR);
      SameLists(s, t);
      RemoveMoves(t, O_CAR_KEY);
      InsertMoves(Remove(t, O_CAR_KEY), O_BATT_CAR, where, 265, 122);
      SameLists(InsertAt(Remove(t, O_CAR_KEY), O_BATT_CAR, where, 265, 122), o.s);
    }
  }

  lemma UseFishKeeps(s: State, where: RoomId, arg: string, rnd: Rand)
    requires Invariant(s, where) && !Same("car", arg)
    ensures var o := Use(s, where, arg, rnd); Invariant(o.s, o.where)
  {
    var o := Use(s, where, arg, rnd);
    if o.action == RedrawRoom {
      RemoveMoves(s, O_FISH);
      ToInventoryMoves(Remove(s, O_FISH), O_TUX, rnd);
      SameLists(ToInventory(Remove(s, O_FISH), O_TUX, rnd), o.s);
    }
  }

  lemma WearKeeps(s: State, where: RoomId, arg: string)
    requires Invariant(s, where)
    ensures var o := Wear(s, where, arg); Invariant(o.s, o.where)
  {
    hide State.ListAgrees, Remove;
    RemoveMoves(s, O_BUNNYSUIT);
    SameLists(Remove(s, O_BUNNYSUIT), Remove(s, O_BUNNYSUIT).(flags := s.flags + {WearingSuit}));
  }

  lemma PerformKeeps(s: State, where: RoomId, deed: Deed, rnd: Rand)
    requires Invariant(s, where)
    ensures var o := Perform(s, where, deed, rnd); Invariant(o.s, o.where)
  {
    match deed
    case GoLeft => MoveLeftKeeps(s, where, rnd);
    case GoEnter => EnterKeeps(s, where, rnd);
    case GoRight => MoveRightKeeps(s, where, rnd);
    case Typed(verb, arg) =>
      match verb
      case VBuy => BuyKeeps(s, where, arg, rnd);
      case VCharge => ChargeKeeps(s, where, arg, rnd);
      case VDo => DoKeeps(s, where, arg);
      case VDrink => DrinkKeeps(s, where, arg);
      case VDrop => DropKeeps(s, where, arg, rnd);
      case VFix => FixKeeps(s, where, arg, rnd);
      case VFlash => FlashKeeps(s, where, arg, rnd);
      case VGet => GetKeeps(s, where, arg, rnd);
      case VGo => GoKeeps(s, where, arg);
      case VInstall => InstallKeeps(s, where, arg);
      case VInventory => InventoryKeeps(s, where);
      case VSigh => SighKeeps(s, where);
      case VUse => if Same("car", arg) { UseCarKeeps(s, where, arg, rnd); } else { UseFishKeeps(s, where, arg, rnd); }
      case VWear => WearKeeps(s, where, arg);
  }

  // ----- runs -----

  datatype Turn = Turn(deed: Deed, rnd: Rand)

  /** The world and the player's room after some turns; nothing happens once the game is won. */
  ghost function Play(s: State, where: RoomRef, turns: seq<Turn>): (r: (State, RoomRef))
    requires Invariant(s, where)
    ensures Invariant(r.0, r.1)
    decreases |turns|
  {
    if turns == [] || where == NONE then (s, where)
    else
      PerformKeeps(s, where, turns[0].deed, turns[0].rnd);
      var o := Perform(s, where, turns[0].deed, turns[0].rnd);
      Play(o.s, o.where, turns[1..])
  }

  /** What placing objects never touches. */
  ghost predicate OnlyPlaced(s: State, media: Media) {
    && s.WellFormed() && s.flags == {} && s.media == media
    && s.enter == Blank(media).enter && s.view == Blank(media).view && s.swap == Blank(media).swap
  }

  lemma PlacingMoves(s: State, o: ObjId, rnd: Rand)
    requires s.WellFormed() && s.In(o, NONE)
    ensures if StartRoom(o) == NONE then Placed(s, o, rnd) == s else OnlyMoved(s, Placed(s, o, rnd), o, StartRoom(o))
  {
    var r := StartRoom(o);
    if r != NONE {
      InsertMoves(s, o, r, StartX(o), StartY(o));
      InsertMoves(s, o, r, RandomX(s, o, r, rnd), RandomY(s, o, r, rnd));
    }
  }

  lemma NothingPlaced(media: Media)
    requires media.Valid()
    ensures OnlyPlaced(Blank(media), media) && EdgesFixed(Blank(media))
    ensures forall o: ObjId :: Blank(media).obj[o].loc == NONE
    ensures Blank(media).view[R_CAR_SITE] == R_CAR_SITE && Blank(media).swap[SWAP_CAR] == N_ROOMS + SWAP_CAR
    ensures Blank(media).enter[R_COCKPIT] == NONE
  {
    BlankWellFormed(media);
  }

  lemma {:induction false} BuiltWorld(media: Media, rnds: seq<Rand>, k: nat)
    requires media.Valid() && |rnds| == N_OBJECTS && k <= N_OBJECTS
    ensures OnlyPlaced(Built(media, rnds, k), media)
    ensures forall o: ObjId :: Built(media, rnds, k).obj[o].loc == if o < k then StartRoom(o) else NONE
  {
    hide Placed, Blank, StartRoom;
    if k == 0 {
      NothingPlaced(media);
    } else {
      BuiltWorld(media, rnds, k - 1);
      PlacingMoves(Built(media, rnds, k - 1), k - 1, rnds[k - 1]);
    }
  }

  lemma CyclesStart(s: State)
    requires s.Shaped() && s.flags == {} && s.enter[R_COCKPIT] == NONE
    requires forall o: ObjId :: s.obj[o].loc == StartRoom(o)
    requires s.view[R_CAR_SITE] == R_CAR_SITE && s.swap[SWAP_CAR] == N_ROOMS + SWAP_CAR
    ensures CarCycle(s) && ItemCycles(s) && Gates(s, START_ROOM)
  {
  }

  lemma NewGame(media: Media, rnds: seq<Rand>)
    requires media.Valid() && |rnds| == N_OBJECTS
    ensures Invariant(Built(media, rnds, N_OBJECTS), START_ROOM)
  {
    BuiltWorld(media, rnds, N_OBJECTS);
    NothingPlaced(media);
    hide Built, Blank, CarCycle, ItemCycles, Gates, StartRoom;
    CyclesStart(Built(media, rnds, N_OBJECTS));
  }

  /** No game is won without every accomplishment, the reflashed robot, the repaired
      GPS and the installed transmitter card, however the objects were placed. */
  lemma WinningTakesEverything(media: Media, rnds: seq<Rand>, turns: seq<Turn>)
    requires media.Valid() && |rnds| == N_OBJECTS
    ensures Invariant(Built(media, rnds, N_OBJECTS), START_ROOM)
    ensures var (s, where) := Play(Built(media, rnds, N_OBJECTS), START_ROOM, turns);
            where == NONE ==> AllAccomplished(s)
  {
    NewGame(media, rnds);
  }

  // ----- what "get" takes -----

  /** Every object that "get" moves goes by the name given. */
  ghost predicate TakesOnlyNamed(s: State, where: RoomId, arg: string, rnd: Rand)
    requires s.Shaped() && PlayerPlaced(s, where)
  {
    forall o: ObjId | Get(s, where, arg, rnd).s.obj[o] != s.obj[o] :: Same(arg, Name(o))
  }

  lemma {:induction false} FoundHasName(q: seq<ObjId>, arg: string)
    ensures FindByName(q, arg) != NONE ==> Same(arg, Name(FindByName(q, arg)))
  {
    if q != [] && !Same(arg, Name(q[0])) {
      FoundHasName(q[1..], arg);
    }
  }

  /** "get" takes only what it names, except next to the car while the battery is under the hood:
      there it takes the battery, whatever it names. */
  lemma GetTakesOnlyNamed(s: State, where: RoomId, arg: string, rnd: Rand)
    requires Invariant(s, where)
    ensures TakesOnlyNamed(s, where, arg, rnd)
            <==> !(Standing(s, where) == R_CAR_SITE && s.In(O_BATT_CAR, R_CAR_SITE)) || Same(arg, "battery")
  {
    hide Same, EdgesFixed, Gates, ItemCycles, State.ListAgrees, Remove, ToInventory;
    var at := Standing(s, where);
    if at == R_CAR_SITE && s.In(O_BATT_CAR, at) {
      RemoveMoves(s, O_BATT_CAR);
      ToInventoryMoves(Remove(s, O_BATT_CAR), O_BATT_EMPTY, rnd);
      assert Get(s, where, arg, rnd).s.obj[O_BATT_CAR] != s.obj[O_BATT_CAR] && Name(O_BATT_CAR) == "battery";
    } else {
      var sp := SpecialGet(s, at, arg);
      var o := if sp.o != NONE then sp.o else Find(s, at, arg);
      if o != NONE {
        FoundHasName(s.contents[at], arg);
        BooksAreBooks(arg);
        ToInventoryMoves(s, o, rnd);
      }
    }
  }

  lemma BooksAreBooks(arg: string)
    ensures Name(O_BOOK_C) == Name(O_BOOK_WODE) == "book"
    ensures Same("book", arg) ==> Same(arg, "book")
    ensures Same(arg, "book") ==> Same("book", arg)
  {
  }

  // ----- what the display relies on -----

  /** Moving objects leaves photos, edges and flags alone. */
  ghost predicate SameButObjects(s: State, t: State) {
    t == s.(obj := t.obj, contents := t.contents)
  }

  lemma MovingObjectsOnly(s: State, o: ObjId, r: RoomId, rnd: Rand)
    requires s.Shaped()
    ensures SameButObjects(s, Remove(s, o)) && Remove(s, o).Shaped()
    ensures SameButObjects(s, Insert(s, o, r, rnd))
    ensures SameButObjects(s, ToInventory(s, o, rnd))
  {
  }

  /** Unless an action asks for a redraw, it changes nothing that is drawn, nor the
      player's room; and a redraw in place keeps the room and every photo. */
  ghost predicate ViewKept(s: State, where: RoomId, o: Outcome) {
    && (o.action == AllowEdit || o.action == DiscardText ==> o.where == where && o.s == s.(flags := o.s.flags))
    && (o.action == RedrawRoom ==> o.where == where && o.s.view == s.view)
    && o.s.media == s.media
  }

  lemma BuyKeepsView(s: State, where: RoomId, arg: string, rnd: Rand)
    requires s.Shaped() && PlayerPlaced(s, where)
    ensures ViewKept(s, where, Buy(s, where, arg, rnd))
  {
    MovingObjectsOnly(s, O_MTN_DEW, R_INVENTORY, rnd);
  }

  lemma ChargeKeepsView(s: State, where: RoomId, arg: string, rnd: Rand)
    requires s.Shaped() && PlayerPlaced(s, where)
    ensures ViewKept(s, where, Charge(s, where, arg, rnd))
  {
    MovingObjectsOnly(s, O_BATT_EMPTY, R_INVENTORY, rnd);
    MovingObjectsOnly(Remove(s, O_BATT_EMPTY), O_BATT_FULL, R_INVENTORY, rnd);
  }

  lemma FlashKeepsView(s: State, where: RoomId, arg: string, rnd: Rand)
    requires s.Shaped() && PlayerPlaced(s, where)
    ensures ViewKept(s, where, Flash(s, where, arg, rnd))
  {
    MovingObjectsOnly(s, O_ROBOT_DEAD, R_INVENTORY, rnd);
    MovingObjectsOnly(Remove(s, O_ROBOT_DEAD), O_ROBOT_LIVE, R_INVENTORY, rnd);
  }

  lemma UseKeepsView(s: State, where: RoomId, arg: string, rnd: Rand)
    requires s.Shaped() && PlayerPlaced(s, where)
    ensures ViewKept(s, where, Use(s, where, arg, rnd))
  {
    hide Same, ToInventory;
    MovingObjectsOnly(s, O_FISH, R_INVENTORY, rnd);
    MovingObjectsOnly(Remove(s, O_FISH), O_TUX, R_INVENTORY, rnd);
  }

  lemma FixKeepsView(s: State, where: RoomId, arg: string, rnd: Rand)
    requires s.Shaped() && PlayerPlaced(s, where)
    ensures ViewKept(s, where, Fix(s, where, arg, rnd))
  {
    hide Same, ToInventory;
    MovingObjectsOnly(s, O_GPS_BAD, R_INVENTORY, rnd);
    MovingObjectsOnly(Remove(s, O_GPS_BAD), O_GPS_SPEC, R_INVENTORY, rnd);
    MovingObjectsOnly(Remove(Remove(s, O_GPS_BAD), O_GPS_SPEC), O_GPS_GOOD, R_INVENTORY, rnd);
  }

  lemma DropKeepsView(s: State, where: RoomId, arg: string, rnd: Rand)
    requires s.Shaped() && PlayerPlaced(s, where)
    ensures ViewKept(s, where, Drop(s, where, arg, rnd))
  {
    var o := Find(s, R_INVENTORY, arg);
    if o != NONE {
      MovingObjectsOnly(s, o, Standing(s, where), rnd);
    }
  }

  lemma GetKeepsView(s: State, where: RoomId, arg: string, rnd: Rand)
    requires s.Shaped() && PlayerPlaced(s, where)
    ensures ViewKept(s, where, Get(s, where, arg, rnd))
  {
    hide Remove, ToInventory;
    var src := Standing(s, where);
    var sp := SpecialGet(s, src, arg);
    MovingObjectsOnly(s, O_BATT_CAR, R_INVENTORY, rnd);
    var o := if sp.o != NONE then sp.o else Find(s, src, arg);
    if o != NONE {
      MovingObjectsOnly(sp.s, o, R_INVENTORY, rnd);
    }
  }

  lemma OnlyRedrawsChangeTheView(s: State, where: RoomId, deed: Deed, rnd: Rand)
    requires s.Shaped() && PlayerPlaced(s, where)
    ensures ViewKept(s, where, Perform(s, where, deed, rnd))
  {
    if deed.Typed? {
      match deed.verb
      case VBuy => BuyKeepsView(s, where, deed.arg, rnd);
      case VCharge => ChargeKeepsView(s, where, deed.arg, rnd);
      case VFlash => FlashKeepsView(s, where, deed.arg, rnd);
      case VUse => UseKeepsView(s, where, deed.arg, rnd);
      case VDrop => DropKeepsView(s, where, deed.arg, rnd);
      case VGet => GetKeepsView(s, where, deed.arg, rnd);
      case VDo =>
      case VDrink =>
      case VFix => FixKeepsView(s, where, deed.arg, rnd);
      case VGo =>
      case VInstall =>
      case VInventory =>
      case VSigh =>
      case VWear =>
    }
  }

  // ----- the inventory grid -----

  function Position(s: State, o: ObjId): (nat, nat)
    requires s.Shaped()
  {
    (s.obj[o].x, s.obj[o].y)
  }

  ghost function Positions(s: State, q: seq<ObjId>): (ps: set<(nat, nat)>)
    requires s.Shaped()
    ensures |ps| <= |q|
    ensures forall i | 0 <= i < |q| :: Position(s, q[i]) in ps
  {
    if q == [] then {} else {Position(s, q[0])} + Positions(s, q[1..])
  }

  ghost function SlotPositions(k: nat): (ps: set<(nat, nat)>)
    requires k <= SLOTS
    ensures |ps| == k
    ensures forall p | p in ps :: exists j | 0 <= j < k :: p == (SlotX(j), SlotY(j))
  {
    if k == 0 then {} else SlotPositions(k - 1) + {(SlotX(k - 1), SlotY(k - 1))}
  }

  lemma {:induction false} TakenSlotsAreOccupied(s: State, k: nat)
    requires s.Shaped() && k <= SLOTS && forall j | 0 <= j < SLOTS :: SlotTaken(s, j)
    ensures SlotPositions(k) <= Positions(s, s.contents[R_INVENTORY])
  {
    if k > 0 {
      TakenSlotsAreOccupied(s, k - 1);
      assert SlotTaken(s, k - 1);
    }
  }

  /** With fewer than twelve objects carried the grid search finds a slot that no carried
      object occupies, and the object goes there. */
  lemma GridHasRoom(s: State, o: ObjId, rnd: Rand)
    requires s.Shaped() && |s.contents[R_INVENTORY]| < SLOTS
    ensures var k := FreeSlot(s, 0);
      && k < SLOTS && ToInventory(s, o, rnd) == InsertAt(s, o, R_INVENTORY, SlotX(k), SlotY(k))
      && forall p | p in s.contents[R_INVENTORY] :: Position(s, p) != (SlotX(k), SlotY(k))
  {
    ChosenSlotIsFirstFree(s, 0);
    if FreeSlot(s, 0) == SLOTS {
      TakenSlotsAreOccupied(s, SLOTS);
      SubsetSize(SlotPositions(SLOTS), Positions(s, s.contents[R_INVENTORY]));
    }
  }

  lemma SubsetSize<T>(a: set<T>, b: set<T>)
    requires a <= b
    ensures |a| <= |b|
  {
    assert |b| == |a| + |b - a|;
  }
}
