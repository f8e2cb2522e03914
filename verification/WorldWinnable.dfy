/** The other half: as long as the areas within reach hold all that it takes, there is a way to
    win the adventure.  The player gathers everything, area by area. */
module WorldWinnable {
  import opened Photo
  import opened WorldTables
  import opened WorldSpec
  import opened WorldRuns
  import opened WorldChance
  import opened WorldProspects
  import opened WorldWays

  /** A position of the game: the world and the player's room. */
  datatype Position = Position(s: State, where: RoomRef)

  /** The player can get from p to (s, where). */
  ghost predicate Leads(p: Position, s: State, where: RoomRef) {
    Invariant(p.s, p.where) && exists turns :: Play(p.s, p.where, turns) == (s, where)
  }

  lemma {:induction false} PlayOneMore(s: State, where: RoomRef, turns: seq<Turn>, last: Turn)
    requires Invariant(s, where) && Play(s, where, turns).1 != NONE
    ensures var (t, at) := Play(s, where, turns);
            && PlayerPlaced(t, at)
            && var o := Perform(t, at, last.deed, last.rnd);
               Play(s, where, turns + [last]) == (o.s, o.where)
    decreases |turns|
  {
    hide Perform;
    if turns == [] {
      assert ([] + [last])[1..] == [];
      var o := Perform(s, where, last.deed, last.rnd);
      PerformKeeps(s, where, last.deed, last.rnd);
      assert Play(o.s, o.where, []) == (o.s, o.where);
    } else {
      PerformKeeps(s, where, turns[0].deed, turns[0].rnd);
      var o := Perform(s, where, turns[0].deed, turns[0].rnd);
      PlayOneMore(o.s, o.where, turns[1..], last);
      assert (turns + [last])[1..] == turns[1..] + [last];
    }
  }

  /** Draws of rand () that leave the photo of the Boneyard bridge alone. */
  const DRAWS := Rand(1, 1)

  lemma Act(p: Position, s: State, where: RoomId, deed: Deed) returns (o: Outcome)
    requires Leads(p, s, where)
    ensures Invariant(s, where) && o == Perform(s, where, deed, DRAWS)
    ensures Leads(p, o.s, o.where) && Invariant(o.s, o.where)
  {
    hide CarCycle, ItemCycles, Gates, EdgesFixed, Perform;
    var turns :| Play(p.s, p.where, turns) == (s, where);
    PlayOneMore(p.s, p.where, turns, Turn(deed, DRAWS));
    PerformKeeps(s, where, deed, DRAWS);
    o := Perform(s, where, deed, DRAWS);
  }

  // ----- walking -----

  lemma OneStep(p: Position, s: State, where: RoomId, way: Way)
    requires Leads(p, s, where) && Next(where, way) != NONE
    ensures Leads(p, s, Next(where, way))
  {
    match way
    case L => var o := Act(p, s, where, GoLeft);
    case E => var o := Act(p, s, where, GoEnter);
    case R => var o := Act(p, s, where, GoRight);
  }

  lemma {:induction false} WalkHome(p: Position, s: State, r: RoomId)
    requires Leads(p, s, r) && r != R_INVENTORY
    ensures Leads(p, s, Hub(AreaOf(r)))
    decreases HomeDistance(r)
  {
    hide Leads, HomeWay, HomeDistance, AreaOf, Next;
    if r != Hub(AreaOf(r)) {
      HomeStep(r);
      OneStep(p, s, r, HomeWay(r));
      WalkHome(p, s, Next(r, HomeWay(r)));
    }
  }

  lemma {:induction false} WalkOut(p: Position, s: State, r: RoomId)
    requires r != R_INVENTORY && Leads(p, s, Hub(AreaOf(r)))
    ensures Leads(p, s, r)
    decreases OutDistance(r)
  {
    hide Leads, OutFrom, OutWay, OutDistance, AreaOf, Next;
    if r != Hub(AreaOf(r)) {
      OutStep(r);
      WalkOut(p, s, OutFrom(r));
      OneStep(p, s, OutFrom(r), OutWay(r));
    }
  }

  // ----- progress -----

  /** From s to t objects were only picked up or used up, and prospects did not get worse. */
  ghost predicate Advances(s: State, t: State) {
    && s.Shaped() && t.Shaped()
    && (forall o: ObjId :: t.obj[o].loc == s.obj[o].loc || t.obj[o].loc == R_INVENTORY || t.obj[o].loc == NONE)
    && s.flags <= t.flags && (LuredTux in t.flags ==> LuredTux in s.flags)
    && (s.enter[R_COCKPIT] != NONE ==> t.enter[R_COCKPIT] != NONE)
    && (HasPower(s) ==> HasPower(t))
    && (forall a: set<Area> | Main in a :: NoBetter(t, HOME, s, HOME, a))
  }

  /** The battery is out of the car. */
  ghost predicate HasPower(s: State)
    requires s.Shaped()
  {
    Exists(s, O_BATT_EMPTY) || Exists(s, O_BATT_FULL) || CarFixed in s.flags
  }

  const HOME: RoomId := R_EAST_EVRT

  lemma AdvancesFurther(s: State, t: State, u: State)
    requires Advances(s, t) && Advances(t, u)
    ensures Advances(s, u) && u.Shaped()
  {
    hide CanWearSuit, CanHaveRobot, CanHaveGps, CanDrive, CanFly, Prizes, Has;
    forall a: set<Area> | Main in a
      ensures NoBetter(u, HOME, s, HOME, a)
    {
      assert NoBetter(t, HOME, s, HOME, a) && NoBetter(u, HOME, t, HOME, a);
    }
  }

  lemma StayingAdvances(s: State)
    requires s.Shaped()
    ensures Advances(s, s)
  {
  }

  lemma PocketingAdvances(s: State, t: State, o: ObjId)
    requires OnlyMoved(s, t, o, R_INVENTORY)
    ensures Advances(s, t)
  {
    hide State.ListAgrees;
    forall a: set<Area> | Main in a
      ensures NoBetter(t, HOME, s, HOME, a)
    {
      assert Has(t, a, o);
    }
  }

  /** Everything in the areas a is in the player's pockets, but for Tux, who has to be lured. */
  ghost predicate Swept(s: State, a: set<Area>)
    requires s.Shaped()
  {
    forall o: ObjId | Has(s, a, o) && !s.In(o, R_INVENTORY) :: o == O_TUX && LuredTux !in s.flags
  }

  lemma SweptStays(s: State, t: State, a: set<Area>)
    requires Advances(s, t) && Swept(s, a)
    ensures Swept(t, a)
  {
    hide NoBetter;
    forall o: ObjId | Has(t, a, o) && !t.In(o, R_INVENTORY)
      ensures o == O_TUX && LuredTux !in t.flags
    {
      assert Has(s, a, o) && !s.In(o, R_INVENTORY);
    }
  }

  // ----- gathering -----

  /** What picking up in room r can still bring, library books included. */
  ghost function ToDo(s: State, r: RoomId): set<ObjId>
    requires s.Shaped()
  {
    set o: ObjId | s.obj[o].loc == r || ((o == O_BOOK_C || o == O_BOOK_WODE) && s.obj[o].loc == NONE)
  }

  /** The room holds nothing that can be picked up. */
  ghost predicate Bare(s: State, r: RoomId)
    requires s.Shaped()
  {
    forall o: ObjId | s.In(o, r) :: o == O_TUX && LuredTux !in s.flags
  }

  lemma {:induction false} SomethingFound(q: seq<ObjId>, o: ObjId)
    requires o in q
    ensures FindByName(q, Name(o)) in q && Same(Name(o), Name(FindByName(q, Name(o))))
  {
    hide Name;
    if !Same(Name(o), Name(q[0])) {
      SomethingFound(q[1..], o);
    }
  }

  lemma OnlyTuxIsTux(o: ObjId)
    requires o != O_TUX
    ensures !Same(Name(o), Name(O_TUX))
  {
    assert |Name(o)| == 3 ==> Name(o)[1] != 'u';
  }

  lemma TakeBattery(p: Position, s: State, name: string) returns (t: State)
    requires Leads(p, s, R_CAR_SITE) && s.Shaped() && s.In(O_BATT_CAR, R_CAR_SITE)
    ensures Leads(p, t, R_CAR_SITE) && Advances(s, t) && t.In(O_BATT_EMPTY, R_INVENTORY) && t.In(O_BATT_CAR, NONE)
    ensures t.flags == s.flags && ToDo(t, R_CAR_SITE) < ToDo(s, R_CAR_SITE)
  {
    hide ItemCycles, Gates, EdgesFixed, Leads, State.ListAgrees, Remove, InsertAt, ToInventory, Find;
    var out := Act(p, s, R_CAR_SITE, Typed(VGet, name));
    RemoveMoves(s, O_BATT_CAR);
    ToInventoryMoves(Remove(s, O_BATT_CAR), O_BATT_EMPTY, DRAWS);
    t := out.s;
    assert O_BATT_CAR in ToDo(s, R_CAR_SITE) && O_BATT_CAR !in ToDo(t, R_CAR_SITE);
  }

  /** "get" takes something, though it may be another object of the same name. */
  lemma TakeSomething(p: Position, s: State, r: RoomId, o: ObjId) returns (t: State)
    requires Leads(p, s, r) && r != R_INVENTORY && s.Shaped()
    requires s.In(o, r) && (o == O_TUX ==> LuredTux in s.flags)
    ensures Leads(p, t, r) && Advances(s, t) && t.Shaped() && ToDo(t, r) < ToDo(s, r)
  {
    hide CarCycle, ItemCycles, Gates, EdgesFixed, Leads, Name, Same, Remove, InsertAt, ToInventory;
    if r == R_CAR_SITE && s.In(O_BATT_CAR, r) {
      t := TakeBattery(p, s, Name(o));
      return;
    }
    var out := Act(p, s, r, Typed(VGet, Name(o)));
    assert s.ListAgrees(r);
    SomethingFound(s.contents[r], o);
    var sp := SpecialGet(s, r, Name(o));
    var taken: ObjId := if sp.o != NONE then sp.o else FindByName(s.contents[r], Name(o));
    if o != O_TUX {
      OnlyTuxIsTux(o);
    }
    ToInventoryMoves(s, taken, DRAWS);
    PocketingAdvances(s, out.s, taken);
    t := out.s;
    assert taken in ToDo(s, r) && taken !in ToDo(t, r);
  }

  lemma {:induction false} EmptyRoom(p: Position, s: State, r: RoomId) returns (t: State)
    requires Leads(p, s, r) && r != R_INVENTORY && s.Shaped()
    ensures Leads(p, t, r) && Advances(s, t) && t.Shaped() && Bare(t, r)
    decreases ToDo(s, r)
  {
    hide Leads, Advances, ToDo;
    if o: ObjId :| s.In(o, r) && (o == O_TUX ==> LuredTux in s.flags) {
      var u := TakeSomething(p, s, r, o);
      t := EmptyRoom(p, u, r);
      AdvancesFurther(s, u, t);
    } else {
      StayingAdvances(s);
      t := s;
    }
  }

  lemma BareStays(s: State, t: State, r: RoomId)
    requires Advances(s, t) && Bare(s, r) && r != R_INVENTORY
    ensures Bare(t, r)
  {
    hide NoBetter;
    forall o: ObjId | t.In(o, r)
      ensures o == O_TUX && LuredTux !in t.flags
    {
      assert s.In(o, r);
    }
  }

  lemma {:induction false} EmptyRooms(p: Position, s: State, area: Area, k: nat) returns (t: State)
    requires Leads(p, s, Hub(area)) && s.Shaped() && k <= N_ROOMS
    requires forall r: RoomId | 0 < r < k && AreaOf(r) == area :: Bare(s, r)
    ensures Leads(p, t, Hub(area)) && Advances(s, t) && t.Shaped()
    ensures forall r: RoomId | r != R_INVENTORY && AreaOf(r) == area :: Bare(t, r)
    decreases N_ROOMS - k
  {
    hide Leads, Advances, Bare, AreaOf, Hub;
    if k == N_ROOMS {
      StayingAdvances(s);
      t := s;
    } else if k == 0 || AreaOf(k) != area {
      t := EmptyRooms(p, s, area, k + 1);
    } else {
      WalkOut(p, s, k);
      var u := EmptyRoom(p, s, k);
      WalkHome(p, u, k);
      forall r: RoomId | 0 < r < k && AreaOf(r) == area
        ensures Bare(u, r)
      {
        BareStays(s, u, r);
      }
      t := EmptyRooms(p, u, area, k + 1);
      AdvancesFurther(s, u, t);
    }
  }

  /** The player walks through all rooms of an area and takes what there is. */
  lemma Sweep(p: Position, s: State, area: Area, a: set<Area>) returns (t: State)
    requires Leads(p, s, Hub(area)) && s.Shaped() && Swept(s, a)
    ensures Leads(p, t, Hub(area)) && Advances(s, t) && t.Shaped() && Swept(t, a + {area})
  {
    t := EmptyRooms(p, s, area, 0);
    SweptStays(s, t, a);
    hide Leads, Advances, AreaOf, Hub;
    forall o: ObjId | Has(t, a + {area}, o) && !t.In(o, R_INVENTORY)
      ensures o == O_TUX && LuredTux !in t.flags
    {
      var r: RoomId := t.obj[o].loc;
      if AreaOf(r) == area {
        assert Bare(t, r) && t.In(o, r);
      } else {
        assert Has(t, a, o);
      }
    }
  }

  lemma InPocket(s: State, a: set<Area>, o: ObjId)
    requires s.Shaped() && Swept(s, a) && Has(s, a, o) && (o == O_TUX ==> LuredTux in s.flags)
    ensures s.In(o, R_INVENTORY)
  {
  }

  // ----- errands, from home and back -----

  lemma PutOnSuit(p: Position, s: State, a: set<Area>) returns (t: State)
    requires Leads(p, s, HOME) && s.Shaped() && Swept(s, a) && CanWearSuit(s, a)
    ensures Leads(p, t, HOME) && Advances(s, t) && t.Shaped() && WearingSuit in t.flags
  {
    hide Leads, Advances;
    if WearingSuit in s.flags {
      StayingAdvances(s);
      t := s;
    } else {
      InPocket(s, a, O_BUNNYSUIT);
      t := WearCarriedSuit(p, s);
    }
  }

  lemma WearCarriedSuit(p: Position, s: State) returns (t: State)
    requires Leads(p, s, HOME) && s.Shaped() && s.In(O_BUNNYSUIT, R_INVENTORY)
    ensures Leads(p, t, HOME) && Advances(s, t) && t.Shaped() && WearingSuit in t.flags
  {
    hide CarCycle, ItemCycles, Gates, EdgesFixed, Leads, State.ListAgrees, Remove;
    var out := Act(p, s, HOME, Typed(VWear, "bunnysuit"));
    RemoveMoves(s, O_BUNNYSUIT);
    t := out.s;
  }

  lemma Unlock(p: Position, s: State, door: RoomId, inside: RoomId)
    requires Leads(p, s, door) && s.Shaped()
    requires || (door == R_CSL_DOOR && inside == R_CSL_LOBBY && s.In(O_ICARD, R_INVENTORY))
             || (door == R_BY_395LAB && inside == R_IN_395LAB && s.In(O_ICARD, R_INVENTORY))
             || (door == R_BY_CLEANR && inside == R_IN_CLEANR && WearingSuit in s.flags)
             || (door == R_BECK_DOOR && inside == R_BECKLOBBY && s.In(O_ROBOT_LIVE, R_INVENTORY))
    ensures Leads(p, s, inside)
  {
    hide CarCycle, ItemCycles, Gates, Leads, State.ListAgrees;
    var out := Act(p, s, door, GoEnter);
  }

  /** With the dead robot in hand, or lying there, in the lab. */
  lemma FlashRobot(p: Position, s: State) returns (t: State)
    requires Leads(p, s, R_IN_395LAB) && s.Shaped() && s.Near(O_ROBOT_DEAD, R_IN_395LAB)
    ensures Leads(p, t, R_IN_395LAB) && Advances(s, t) && t.Shaped() && t.In(O_ROBOT_LIVE, R_INVENTORY)
    ensures t.flags == s.flags && t.enter == s.enter
    ensures forall o: ObjId | o != O_ROBOT_DEAD && o != O_ROBOT_LIVE :: t.obj[o].loc == s.obj[o].loc
  {
    hide CarCycle, Gates, EdgesFixed, Leads, State.ListAgrees, Remove, ToInventory;
    var out := Act(p, s, R_IN_395LAB, Typed(VFlash, "robot"));
    RemoveMoves(s, O_ROBOT_DEAD);
    ToInventoryMoves(Remove(s, O_ROBOT_DEAD), O_ROBOT_LIVE, DRAWS);
    t := out.s;
  }

  lemma MakeRobot(p: Position, s: State, a: set<Area>) returns (t: State)
    requires Leads(p, s, HOME) && s.Shaped() && Swept(s, a) && Main in a && CanHaveRobot(s, HOME, a)
    ensures Leads(p, t, HOME) && Advances(s, t) && t.Shaped() && t.In(O_ROBOT_LIVE, R_INVENTORY)
  {
    if Has(s, a, O_ROBOT_LIVE) {
      InPocket(s, a, O_ROBOT_LIVE);
      StayingAdvances(s);
      t := s;
    } else {
      InPocket(s, a, O_ROBOT_DEAD);
      InPocket(s, a, O_ICARD);
      hide Leads, Advances;
      WalkOut(p, s, R_BY_395LAB);
      Unlock(p, s, R_BY_395LAB, R_IN_395LAB);
      t := FlashRobot(p, s);
      OneStep(p, t, R_IN_395LAB, E);
      WalkHome(p, t, R_BY_395LAB);
    }
  }

  lemma FixGps(p: Position, s: State) returns (t: State)
    requires Leads(p, s, R_IN_CLEANR) && s.Shaped() && s.In(O_GPS_BAD, R_INVENTORY) && s.In(O_GPS_SPEC, R_INVENTORY)
    ensures Leads(p, t, R_IN_CLEANR) && Advances(s, t) && t.Shaped() && t.In(O_GPS_GOOD, R_INVENTORY)
  {
    hide CarCycle, Gates, EdgesFixed, Leads, State.ListAgrees, Remove, ToInventory;
    var out := Act(p, s, R_IN_CLEANR, Typed(VFix, "gps"));
    RemoveMoves(s, O_GPS_BAD);
    RemoveMoves(Remove(s, O_GPS_BAD), O_GPS_SPEC);
    ToInventoryMoves(Remove(Remove(s, O_GPS_BAD), O_GPS_SPEC), O_GPS_GOOD, DRAWS);
    t := out.s;
  }

  lemma MakeGps(p: Position, s: State, a: set<Area>) returns (t: State)
    requires Leads(p, s, HOME) && s.Shaped() && Swept(s, a) && Main in a && CanHaveGps(s, a)
    ensures Leads(p, t, HOME) && Advances(s, t) && t.Shaped() && t.In(O_GPS_GOOD, R_INVENTORY)
  {
    if Has(s, a, O_GPS_GOOD) {
      InPocket(s, a, O_GPS_GOOD);
      StayingAdvances(s);
      t := s;
    } else {
      var u := PutOnSuit(p, s, a);
      SweptStays(s, u, a);
      assert NoBetter(u, HOME, s, HOME, a);
      if Has(u, a, O_GPS_GOOD) {
        InPocket(u, a, O_GPS_GOOD);
        t := u;
      } else {
        InPocket(u, a, O_GPS_BAD);
        InPocket(u, a, O_GPS_SPEC);
        t := TakeGpsToCleanRoom(p, u);
        AdvancesFurther(s, u, t);
      }
    }
  }

  lemma TakeGpsToCleanRoom(p: Position, s: State) returns (t: State)
    requires Leads(p, s, HOME) && s.Shaped() && WearingSuit in s.flags
    requires s.In(O_GPS_BAD, R_INVENTORY) && s.In(O_GPS_SPEC, R_INVENTORY)
    ensures Leads(p, t, HOME) && Advances(s, t) && t.Shaped() && t.In(O_GPS_GOOD, R_INVENTORY)
  {
    hide Leads, Advances;
    WalkOut(p, s, R_BY_CLEANR);
    Unlock(p, s, R_BY_CLEANR, R_IN_CLEANR);
    t := FixGps(p, s);
    OneStep(p, t, R_IN_CLEANR, E);
    WalkHome(p, t, R_BY_CLEANR);
  }

  lemma CarOpened(s: State, t: State)
    requires s.Shaped() && t.Shaped() && s.In(O_BATT_CAR, NONE) && t.In(O_BATT_EMPTY, R_INVENTORY)
    requires t.flags == s.flags + {CarOpen} && t.enter == s.enter && s.In(O_CAR_KEY, R_INVENTORY) && t.In(O_CAR_KEY, NONE)
    requires forall o: ObjId | o != O_CAR_KEY && o != O_BATT_EMPTY :: t.obj[o].loc == s.obj[o].loc
    ensures Advances(s, t)
  {
  }

  /** The car is opened and the battery taken out. */
  lemma OpenCar(p: Position, s: State) returns (t: State)
    requires Leads(p, s, R_CAR_SITE) && s.Shaped() && s.In(O_CAR_KEY, R_INVENTORY)
    ensures Leads(p, t, R_CAR_SITE) && Advances(s, t) && t.Shaped()
    ensures t.In(O_BATT_EMPTY, R_INVENTORY) && (s.In(O_ROBOT_LIVE, R_INVENTORY) ==> t.In(O_ROBOT_LIVE, R_INVENTORY))
  {
    hide ItemCycles, Gates, EdgesFixed, Leads, State.ListAgrees, Remove, InsertAt, ToInventory, Find, Advances;
    var open := Act(p, s, R_CAR_SITE, Typed(VUse, "car"));
    var swapped := SwapPhoto(s, R_CAR_SITE, SWAP_CAR);
    SameLists(s, swapped);
    RemoveMoves(swapped, O_CAR_KEY);
    InsertMoves(Remove(swapped, O_CAR_KEY), O_BATT_CAR, R_CAR_SITE, 265, 122);
    var out := Act(p, open.s, R_CAR_SITE, Typed(VGet, "battery"));
    RemoveMoves(open.s, O_BATT_CAR);
    ToInventoryMoves(Remove(open.s, O_BATT_CAR), O_BATT_EMPTY, DRAWS);
    t := out.s;
    CarOpened(s, t);
  }

  lemma ChargeBattery(p: Position, s: State) returns (t: State)
    requires Leads(p, s, R_BECK_MRI) && s.Shaped() && s.In(O_BATT_EMPTY, R_INVENTORY)
    ensures Leads(p, t, R_BECK_MRI) && Advances(s, t) && t.Shaped() && t.In(O_BATT_FULL, R_INVENTORY)
  {
    hide ItemCycles, Gates, EdgesFixed, Leads, State.ListAgrees, Remove, ToInventory;
    var out := Act(p, s, R_BECK_MRI, Typed(VCharge, "battery"));
    RemoveMoves(s, O_BATT_EMPTY);
    ToInventoryMoves(Remove(s, O_BATT_EMPTY), O_BATT_FULL, DRAWS);
    t := out.s;
  }

  lemma InstallBattery(p: Position, s: State) returns (t: State)
    requires Leads(p, s, HOME) && s.Shaped() && s.In(O_BATT_FULL, R_INVENTORY)
    ensures Leads(p, t, HOME) && Advances(s, t) && t.Shaped() && CarFixed in t.flags
  {
    hide ItemCycles, Gates, EdgesFixed, Leads, State.ListAgrees, Remove, ToInventory;
    WalkOut(p, s, R_CAR_SITE);
    var out := Act(p, s, R_CAR_SITE, Typed(VInstall, "battery"));
    RemoveMoves(s, O_BATT_FULL);
    t := out.s;
    WalkHome(p, t, R_CAR_SITE);
  }

  lemma TakeBatteryToBeckman(p: Position, s: State) returns (t: State)
    requires Leads(p, s, HOME) && s.Shaped() && s.In(O_ROBOT_LIVE, R_INVENTORY)
    requires s.In(O_BATT_EMPTY, R_INVENTORY) || s.In(O_CAR_KEY, R_INVENTORY)
    ensures Leads(p, t, HOME) && Advances(s, t) && t.Shaped() && t.In(O_BATT_FULL, R_INVENTORY)
  {
    hide Leads, Advances;
    var u := s;
    StayingAdvances(s);
    if !s.In(O_BATT_EMPTY, R_INVENTORY) {
      WalkOut(p, s, R_CAR_SITE);
      u := OpenCar(p, s);
      WalkHome(p, u, R_CAR_SITE);
    }
    WalkOut(p, u, R_BECK_DOOR);
    Unlock(p, u, R_BECK_DOOR, R_BECKLOBBY);
    WalkOut(p, u, R_BECK_MRI);
    t := ChargeBattery(p, u);
    AdvancesFurther(s, u, t);
    WalkHome(p, t, R_BECK_MRI);
    OneStep(p, t, R_BECKLOBBY, R);
    WalkHome(p, t, R_BECK_DOOR);
  }

  lemma RepairCar(p: Position, s: State, a: set<Area>) returns (t: State)
    requires Leads(p, s, HOME) && s.Shaped() && Swept(s, a) && Main in a && CanDrive(s, HOME, a)
    ensures Leads(p, t, HOME) && Advances(s, t) && t.Shaped() && CarFixed in t.flags
  {
    if CarFixed in s.flags {
      StayingAdvances(s);
      t := s;
    } else if Has(s, a, O_BATT_FULL) {
      InPocket(s, a, O_BATT_FULL);
      t := InstallBattery(p, s);
    } else {
      var u := MakeRobot(p, s, a);
      SweptStays(s, u, a);
      assert NoBetter(u, HOME, s, HOME, a);
      t := RepairCarWithRobot(p, u, a);
      AdvancesFurther(s, u, t);
    }
  }

  lemma RepairCarWithRobot(p: Position, s: State, a: set<Area>) returns (t: State)
    requires Leads(p, s, HOME) && s.Shaped() && Swept(s, a) && Main in a && CanDrive(s, HOME, a)
    requires s.In(O_ROBOT_LIVE, R_INVENTORY)
    ensures Leads(p, t, HOME) && Advances(s, t) && t.Shaped() && CarFixed in t.flags
  {
    assert Invariant(s, HOME);
    hide ItemCycles, Gates, EdgesFixed, Leads, Advances;
    StayingAdvances(s);
    var u := s;
    if CarFixed in s.flags {
      t := s;
      return;
    }
    if Has(s, a, O_BATT_FULL) {
      InPocket(s, a, O_BATT_FULL);
    } else {
      if Has(s, a, O_BATT_EMPTY) {
        InPocket(s, a, O_BATT_EMPTY);
      } else {
        NoBatteryOnSite(s, a);
        InPocket(s, a, O_CAR_KEY);
      }
      u := TakeBatteryToBeckman(p, s);
    }
    t := InstallBattery(p, u);
    AdvancesFurther(s, u, t);
  }

  lemma NoBatteryOnSite(s: State, a: set<Area>)
    requires s.Shaped() && CarCycle(s) && Swept(s, a)
    ensures !Has(s, a, O_BATT_CAR)
  {
  }

  // ----- into an area and back -----

  lemma Drive(p: Position, s: State, where: RoomId, town: string) returns (there: RoomId)
    requires Leads(p, s, where) && s.Shaped()
    requires || (where == R_CAR_SITE && town == "allerton" && CarFixed in s.flags && s.In(O_GPS_GOOD, R_INVENTORY))
             || (where == R_CAR_SITE && town == "willard" && CarFixed in s.flags)
             || ((where == R_ALLERTON || where == R_WILLARD) && town == "campus")
    ensures there == if town == "allerton" then R_ALLERTON else if town == "willard" then R_WILLARD else R_CAR_SITE
    ensures Leads(p, s, there)
  {
    hide CarCycle, ItemCycles, Gates, EdgesFixed, Leads, State.ListAgrees;
    var out := Act(p, s, where, Typed(VGo, town));
    there := out.where;
  }

  ghost predicate ReadyToFly(s: State)
    requires s.Shaped()
  {
    CarFixed in s.flags && s.enter[R_COCKPIT] != NONE
  }

  lemma InstallCard(p: Position, s: State) returns (t: State)
    requires Leads(p, s, R_COCKPIT) && s.Shaped() && s.In(O_MIMO_CARD, R_INVENTORY)
    ensures Leads(p, t, R_COCKPIT) && Advances(s, t) && t.Shaped() && t.enter[R_COCKPIT] != NONE
  {
    hide CarCycle, ItemCycles, Gates, EdgesFixed, Leads, State.ListAgrees, Remove;
    var out := Act(p, s, R_COCKPIT, Typed(VInstall, "mimo"));
    RemoveMoves(s, O_MIMO_CARD);
    t := out.s;
  }

  lemma TakeOff(p: Position, s: State)
    requires Leads(p, s, R_COCKPIT) && s.Shaped() && s.enter[R_COCKPIT] != NONE
    ensures Leads(p, s, R_OVER_WILL)
  {
    hide CarCycle, ItemCycles, Gates, Leads, State.ListAgrees;
    var out := Act(p, s, R_COCKPIT, GoEnter);
  }

  lemma ToCockpit(p: Position, s: State)
    requires Leads(p, s, HOME) && s.Shaped() && CarFixed in s.flags
    ensures Leads(p, s, R_COCKPIT)
  {
    hide Leads;
    WalkOut(p, s, R_CAR_SITE);
    var there := Drive(p, s, R_CAR_SITE, "willard");
    WalkOut(p, s, R_COCKPIT);
  }

  lemma GoIn(p: Position, s: State, a: set<Area>, area: Area) returns (t: State)
    requires Leads(p, s, HOME) && s.Shaped() && Swept(s, a) && Main in a && area != Main && Opens(s, HOME, a, area)
    ensures Leads(p, t, Hub(area)) && Advances(s, t) && t.Shaped() && (area == Antarctica ==> ReadyToFly(t))
  {
    hide Leads, CanWearSuit, CanHaveRobot, CanHaveGps, CanDrive, NoBetter;
    StayingAdvances(s);
    t := s;
    match area {
      case Csl =>
        InPocket(s, a, O_ICARD);
        WalkOut(p, s, R_CSL_DOOR);
        Unlock(p, s, R_CSL_DOOR, R_CSL_LOBBY);
      case Lab =>
        InPocket(s, a, O_ICARD);
        WalkOut(p, s, R_BY_395LAB);
        Unlock(p, s, R_BY_395LAB, R_IN_395LAB);
      case CleanRoom =>
        t := PutOnSuit(p, s, a);
        WalkOut(p, t, R_BY_CLEANR);
        Unlock(p, t, R_BY_CLEANR, R_IN_CLEANR);
      case Beckman =>
        t := MakeRobot(p, s, a);
        WalkOut(p, t, R_BECK_DOOR);
        Unlock(p, t, R_BECK_DOOR, R_BECKLOBBY);
      case Airport =>
        t := RepairCar(p, s, a);
        WalkOut(p, t, R_CAR_SITE);
        var there := Drive(p, t, R_CAR_SITE, "willard");
      case Allerton =>
        t := GoToAllerton(p, s, a);
      case Antarctica =>
        t := FlyOut(p, s, a);
    }
  }

  lemma GoToAllerton(p: Position, s: State, a: set<Area>) returns (t: State)
    requires Leads(p, s, HOME) && s.Shaped() && Swept(s, a) && Main in a && CanDrive(s, HOME, a) && CanHaveGps(s, a)
    ensures Leads(p, t, R_ALLERTON) && Advances(s, t) && t.Shaped()
  {
    hide Leads, CanDrive, CanHaveGps;
    var u := RepairCar(p, s, a);
    SweptStays(s, u, a);
    assert NoBetter(u, HOME, s, HOME, a);
    t := MakeGps(p, u, a);
    assert CarFixed in t.flags;
    AdvancesFurther(s, u, t);
    WalkOut(p, t, R_CAR_SITE);
    var there := Drive(p, t, R_CAR_SITE, "allerton");
  }

  lemma FlyOut(p: Position, s: State, a: set<Area>) returns (t: State)
    requires Leads(p, s, HOME) && s.Shaped() && Swept(s, a) && Main in a && CanDrive(s, HOME, a) && CanFly(s, a)
    ensures Leads(p, t, R_OVER_WILL) && Advances(s, t) && t.Shaped() && ReadyToFly(t)
  {
    hide Leads, CanDrive;
    var u := RepairCar(p, s, a);
    SweptStays(s, u, a);
    assert NoBetter(u, HOME, s, HOME, a);
    ToCockpit(p, u);
    StayingAdvances(u);
    t := u;
    if u.enter[R_COCKPIT] == NONE {
      InPocket(u, a, O_MIMO_CARD);
      t := InstallCard(p, u);
    }
    assert CarFixed in t.flags;
    AdvancesFurther(s, u, t);
    TakeOff(p, t);
  }

  lemma ComeBack(p: Position, s: State, area: Area)
    requires Leads(p, s, Hub(area)) && s.Shaped()
    ensures Leads(p, s, HOME)
  {
    hide Leads;
    match area {
      case Main =>
      case Csl =>
        OneStep(p, s, R_CSL_LOBBY, E);
        WalkHome(p, s, R_CSL_DOOR);
      case Lab =>
        OneStep(p, s, R_IN_395LAB, E);
        WalkHome(p, s, R_BY_395LAB);
      case CleanRoom =>
        OneStep(p, s, R_IN_CLEANR, E);
        WalkHome(p, s, R_BY_CLEANR);
      case Beckman =>
        OneStep(p, s, R_BECKLOBBY, R);
        WalkHome(p, s, R_BECK_DOOR);
      case Allerton =>
        var there := Drive(p, s, R_ALLERTON, "campus");
        WalkHome(p, s, R_CAR_SITE);
      case Airport =>
        var there := Drive(p, s, R_WILLARD, "campus");
        WalkHome(p, s, R_CAR_SITE);
      case Antarctica =>
        OneStep(p, s, R_OVER_WILL, E);
        WalkHome(p, s, R_COCKPIT);
        var there := Drive(p, s, R_WILLARD, "campus");
        WalkHome(p, s, R_CAR_SITE);
    }
  }

  /** An area that opens is entered, cleared out and left again. */
  lemma Visit(p: Position, s: State, a: set<Area>, area: Area) returns (t: State)
    requires Leads(p, s, HOME) && s.Shaped() && Swept(s, a) && Main in a && area != Main && Opens(s, HOME, a, area)
    ensures Leads(p, t, HOME) && Advances(s, t) && t.Shaped() && Swept(t, a + {area})
    ensures area == Antarctica ==> ReadyToFly(t)
  {
    hide Leads, Opens, Swept, Hub;
    var u := GoIn(p, s, a, area);
    SweptStays(s, u, a);
    t := Sweep(p, u, area, a);
    AdvancesFurther(s, u, t);
    ComeBack(p, t, area);
  }

  // ----- the last steps -----

  lemma LureTux(p: Position, s: State) returns (t: State)
    requires Leads(p, s, R_REM_LAB) && s.Shaped() && s.In(O_FISH, R_INVENTORY)
    ensures Leads(p, t, R_REM_LAB) && t.Shaped() && t.In(O_TUX, R_INVENTORY)
    ensures forall o: ObjId | o != O_TUX && o != O_FISH :: t.obj[o].loc == s.obj[o].loc
  {
    hide CarCycle, ItemCycles, Gates, EdgesFixed, Leads, State.ListAgrees, Remove, ToInventory;
    var out := Act(p, s, R_REM_LAB, Typed(VUse, "fish"));
    RemoveMoves(s, O_FISH);
    ToInventoryMoves(Remove(s, O_FISH), O_TUX, DRAWS);
    t := out.s;
  }

  lemma FetchTux(p: Position, s: State, a: set<Area>) returns (t: State)
    requires Leads(p, s, HOME) && s.Shaped() && Swept(s, a) && Prizes(s, a) && (Antarctica in a ==> ReadyToFly(s))
    ensures Leads(p, t, HOME) && t.Shaped() && t.In(O_TUX, R_INVENTORY)
    ensures forall o: ObjId | o != O_TUX && o != O_FISH :: t.obj[o].loc == s.obj[o].loc
  {
    if LuredTux in s.flags {
      InPocket(s, a, O_TUX);
      t := s;
    } else {
      InPocket(s, a, O_FISH);
      assert Invariant(s, HOME);
      assert Antarctica in a;
      hide Leads;
      ToCockpit(p, s);
      TakeOff(p, s);
      WalkOut(p, s, R_REM_LAB);
      t := LureTux(p, s);
      WalkHome(p, t, R_REM_LAB);
      ComeBack(p, t, Antarctica);
    }
  }

  lemma FetchBook(p: Position, s: State) returns (t: State)
    requires Leads(p, s, HOME) && s.Shaped() && (s.In(O_BOOK_C, R_INVENTORY) || s.In(O_BOOK_C, NONE))
    ensures Leads(p, t, HOME) && t.Shaped() && t.In(O_BOOK_C, R_INVENTORY)
    ensures forall o: ObjId | o != O_BOOK_C :: t.obj[o].loc == s.obj[o].loc
  {
    hide CarCycle, ItemCycles, Gates, EdgesFixed, Leads, State.ListAgrees, Remove, ToInventory;
    if s.In(O_BOOK_C, R_INVENTORY) {
      t := s;
    } else {
      WalkOut(p, s, R_BY_ZAS);
      var ate := Act(p, s, R_BY_ZAS, Typed(VSigh, ""));
      WalkHome(p, ate.s, R_BY_ZAS);
      WalkOut(p, ate.s, R_RESERVE);
      var out := Act(p, ate.s, R_RESERVE, Typed(VGet, "book"));
      ToInventoryMoves(ate.s, O_BOOK_C, DRAWS);
      t := out.s;
      WalkHome(p, t, R_RESERVE);
    }
  }

  lemma HandInMp2(p: Position, s: State) returns (won: State)
    requires Leads(p, s, R_IN_391LAB) && s.Shaped()
    requires s.In(O_TUX, R_INVENTORY) && s.In(O_BOOK_C, R_INVENTORY) && s.In(O_MP2, R_INVENTORY)
    ensures Leads(p, won, NONE)
  {
    hide CarCycle, ItemCycles, Gates, EdgesFixed, Leads, Remove, InsertAt;
    var dropped := Act(p, s, R_IN_391LAB, Typed(VDrop, Name(O_TUX)));
    assert s.ListAgrees(R_INVENTORY);
    SomethingFound(s.contents[R_INVENTORY], O_TUX);
    TuxIsOnlyTux(FindByName(s.contents[R_INVENTORY], Name(O_TUX)));
    InsertMoves(s, O_TUX, R_IN_391LAB, RandomX(s, O_TUX, R_IN_391LAB, DRAWS), RandomY(s, O_TUX, R_IN_391LAB, DRAWS));
    var win := Act(p, dropped.s, R_IN_391LAB, Typed(VDo, "mp2"));
    won := win.s;
  }

  lemma TuxIsOnlyTux(o: ObjId)
    requires Same(Name(O_TUX), Name(o))
    ensures o == O_TUX
  {
    if o != O_TUX {
      OnlyTuxIsTux(o);
    }
  }

  lemma Finish(p: Position, s: State, a: set<Area>) returns (won: State)
    requires Leads(p, s, HOME) && s.Shaped() && Swept(s, a) && Prizes(s, a) && (Antarctica in a ==> ReadyToFly(s))
    ensures Leads(p, won, NONE)
  {
    hide Leads, Swept, CanHaveRobot, CanHaveGps, CanWearSuit;
    InPocket(s, a, O_MP2);
    if Has(s, a, O_BOOK_C) {
      InPocket(s, a, O_BOOK_C);
    }
    var t := FetchTux(p, s, a);
    var u := FetchBook(p, t);
    WalkOut(p, u, R_IN_391LAB);
    won := HandInMp2(p, u);
  }

  /** What opens from more areas, and to a better position, includes what opened before. */
  lemma PrizesStayWithin(s: State, at: RoomId, a: set<Area>, t: State, b: set<Area>)
    requires s.Shaped() && t.Shaped() && Main in b && AreaOf(at) in b && a <= b <= AllAreas() && a <= AllAreas()
    requires forall c: set<Area> | b <= c :: NoBetter(t, HOME, s, at, c)
    requires Prizes(s, Spread(s, at, a))
    ensures Prizes(t, Spread(t, HOME, b))
  {
    hide CanWearSuit, CanHaveRobot, CanHaveGps, CanDrive, CanFly, Has;
    SpreadClosed(t, HOME, b);
    var c := Spread(t, HOME, b);
    assert NoBetter(t, HOME, s, at, c);
    forall d | Opens(s, at, c, d)
      ensures d in c
    {
      assert Opens(t, HOME, c, d);
    }
    SpreadLeast(s, at, a, c);
    PrizesMore(s, Spread(s, at, a), c);
  }

  /** From home, with the areas in a cleared out, all that is within reach can be gathered. */
  lemma {:induction false} WinFromHome(p: Position, s: State, a: set<Area>) returns (won: State)
    requires Leads(p, s, HOME) && s.Shaped() && Swept(s, a) && Main in a && a <= AllAreas()
    requires (Antarctica in a ==> ReadyToFly(s)) && Prizes(s, Spread(s, HOME, a))
    ensures Leads(p, won, NONE)
    decreases AllAreas() - a
  {
    hide Leads, Opens, Swept, Prizes;
    if d :| d !in a && Opens(s, HOME, a, d) {
      AreaListed(d);
      var t := Visit(p, s, a, d);
      PrizesStayWithin(s, HOME, a, t, a + {d});
      won := WinFromHome(p, t, a + {d});
    } else {
      assert Spread(s, HOME, a) == a by {
        assert a + (set d | d in AllAreas() && Opens(s, HOME, a, d)) == a;
      }
      won := Finish(p, s, a);
    }
  }

  // ----- from anywhere -----

  /** t, at home, is at least as good as s, at the given room. */
  ghost predicate AtLeastAsGood(s: State, at: RoomId, t: State)
    requires s.Shaped() && t.Shaped()
  {
    forall a: set<Area> | Main in a && AreaOf(at) in a :: NoBetter(t, HOME, s, at, a)
  }

  lemma GoodEnough(s: State, at: RoomId, t: State, u: State)
    requires s.Shaped() && t.Shaped() && AtLeastAsGood(s, at, t) && Advances(t, u)
    ensures AtLeastAsGood(s, at, u)
  {
    hide CanWearSuit, CanHaveRobot, CanHaveGps, CanDrive, CanFly, Prizes, Has;
    forall a: set<Area> | Main in a && AreaOf(at) in a
      ensures NoBetter(u, HOME, s, at, a)
    {
      assert NoBetter(t, HOME, s, at, a) && NoBetter(u, HOME, t, HOME, a);
    }
  }

  /** The robot is flashed now if it will not be possible to come back to the lab. */
  lemma LeaveLab(p: Position, s: State) returns (t: State)
    requires Leads(p, s, R_IN_395LAB) && s.Shaped()
    ensures Leads(p, t, R_IN_395LAB) && t.Shaped() && AtLeastAsGood(s, R_IN_395LAB, t)
  {
    hide Leads, Advances;
    t := s;
    if s.Near(O_ROBOT_DEAD, R_IN_395LAB) {
      t := FlashRobot(p, s);
    }
  }

  /** ... and the battery is charged if it will not be possible to come back to the Beckman Institute. */
  lemma LeaveBeckman(p: Position, s: State, at: RoomId) returns (t: State)
    requires Leads(p, s, at) && s.Shaped() && InBeckman(at)
    ensures Leads(p, t, R_BECKLOBBY) && t.Shaped() && AtLeastAsGood(s, at, t) && Swept(t, {Beckman})
  {
    assert Invariant(s, at);
    hide Leads;
    WalkHome(p, s, at);
    var u := Sweep(p, s, Beckman, {});
    t := u;
    if u.In(O_BATT_EMPTY, R_INVENTORY) {
      WalkOut(p, u, R_BECK_MRI);
      t := ChargeBattery(p, u);
      WalkHome(p, t, R_BECK_MRI);
      SweptStays(u, t, {} + {Beckman});
      AdvancesFurther(s, u, t);
    }
    assert {} + {Beckman} == {Beckman};
    PowerTaken(s, at, u, t);
  }

  lemma PowerTaken(s: State, at: RoomId, u: State, t: State)
    requires Advances(s, u) && Advances(s, t) && CarCycle(s) && InBeckman(at) && Swept(u, {Beckman})
    requires if u.In(O_BATT_EMPTY, R_INVENTORY) then t.In(O_BATT_FULL, R_INVENTORY) else t == u
    ensures AtLeastAsGood(s, at, t)
  {
    forall a: set<Area> | Main in a && AreaOf(at) in a
      ensures NoBetter(t, HOME, s, at, a)
    {
      assert NoBetter(t, HOME, s, HOME, a);
      if s.In(O_BATT_EMPTY, R_INVENTORY) || InBeckman(s.obj[O_BATT_EMPTY].loc) {
        assert Exists(s, O_BATT_EMPTY) && HasPower(u);
        assert Has(u, {Beckman}, O_BATT_EMPTY) ==> u.In(O_BATT_EMPTY, R_INVENTORY);
        assert CanDrive(t, HOME, a);
      }
    }
  }

  /** What has to be done at once is done, and the player goes to where the area is entered. */
  lemma LeaveFirstArea(p: Position, s: State, at: RoomId) returns (t: State)
    requires Leads(p, s, at) && s.Shaped() && at != R_INVENTORY
    ensures Leads(p, t, Hub(AreaOf(at))) && t.Shaped() && AtLeastAsGood(s, at, t)
    ensures AreaOf(at) == Antarctica ==> ReadyToFly(t)
  {
    t := s;
    if at == R_IN_395LAB {
      t := LeaveLab(p, s);
    } else if InBeckman(at) {
      t := LeaveBeckman(p, s, at);
    } else {
      if AreaOf(at) == Antarctica {
        ReadyInAntarctica(p, s, at);
      }
      SameFromHome(s, at);
      WalkHome(p, s, at);
    }
  }

  lemma ReadyInAntarctica(p: Position, s: State, at: RoomId)
    requires Leads(p, s, at) && s.Shaped() && at != R_INVENTORY && AreaOf(at) == Antarctica
    ensures ReadyToFly(s)
  {
    assert Invariant(s, at);
  }

  lemma SameFromHome(s: State, at: RoomId)
    requires s.Shaped() && at != R_IN_395LAB && !InBeckman(at)
    ensures AtLeastAsGood(s, at, s)
  {
  }

  /** From wherever the player stands: the area is cleared out, and so is the main one. */
  lemma SetOut(p: Position, s: State, at: RoomId) returns (t: State)
    requires Leads(p, s, at) && s.Shaped() && at != R_INVENTORY
    ensures Leads(p, t, HOME) && t.Shaped() && AtLeastAsGood(s, at, t) && Swept(t, {Main, AreaOf(at)})
    ensures AreaOf(at) == Antarctica ==> ReadyToFly(t)
  {
    hide Leads, AtLeastAsGood, NoBetter, Hub, AreaOf;
    var area := AreaOf(at);
    var u := LeaveFirstArea(p, s, at);
    var v := Sweep(p, u, area, {});
    ComeBack(p, v, area);
    HomeIsHub();
    t := Sweep(p, v, Main, {} + {area});
    AdvancesFurther(u, v, t);
    GoodEnough(s, at, u, t);
    assert {} + {area} + {Main} == {Main, area};
  }

  lemma HomeIsHub()
    ensures Hub(Main) == HOME
  {
  }

  /** These actions win, whatever chance does meanwhile. */
  ghost predicate Wins(s: State, where: RoomRef, deeds: seq<Deed>)
    requires Invariant(s, where)
  {
    forall turns: seq<Turn> | DeedsOf(turns) == deeds :: Play(s, where, turns).1 == NONE
  }

  lemma OneRunTellsAll(s: State, where: RoomRef, t: State, turns: seq<Turn>)
    requires Invariant(s, where) && Invariant(t, where) && Alike(s, t)
    ensures Play(s, where, turns).1 == NONE <==> Wins(t, where, DeedsOf(turns))
  {
    hide Alike, Invariant, Play, DeedsOf;
    forall turns': seq<Turn> | DeedsOf(turns') == DeedsOf(turns)
      ensures Play(s, where, turns).1 == Play(t, where, turns').1
    {
      PlayAlike(s, t, where, turns, turns');
    }
  }

  /** A game can be won from a position exactly when the areas within reach hold all that it takes:
      then some actions win for certain, and otherwise no actions ever do, not even by luck. */
  lemma WinnableExactly(s: State, where: RoomId)
    requires Invariant(s, where)
    ensures Winnable(s, Standing(s, where)) <==> exists deeds :: Wins(s, where, deeds)
    ensures Winnable(s, Standing(s, where)) <==> exists turns :: Play(s, where, turns).1 == NONE
  {
    hide Winnable, Wins, Play;
    if Winnable(s, Standing(s, where)) {
      var turns := WayToWin(s, where);
      AlikeItself(s);
      OneRunTellsAll(s, where, s, turns);
      assert Wins(s, where, DeedsOf(turns));
    } else {
      forall turns
        ensures Play(s, where, turns).1 != NONE
      {
        NotWinnableNeverWon(s, where, turns);
      }
      forall deeds
        ensures !Wins(s, where, deeds)
      {
        SomeTurns(deeds);
        var turns :| DeedsOf(turns) == deeds;
        AlikeItself(s);
        OneRunTellsAll(s, where, s, turns);
      }
    }
  }

  lemma AlikeItself(s: State)
    requires s.Shaped()
    ensures Alike(s, s)
  {
  }

  lemma SomeTurns(deeds: seq<Deed>)
    ensures exists turns :: DeedsOf(turns) == deeds
  {
    var turns := seq(|deeds|, i requires 0 <= i < |deeds| => Turn(deeds[i], DRAWS));
    assert DeedsOf(turns) == deeds;
  }

  lemma WayToWin(s: State, where: RoomId) returns (turns: seq<Turn>)
    requires Invariant(s, where) && Winnable(s, Standing(s, where))
    ensures Play(s, where, turns).1 == NONE
  {
    hide CarCycle, ItemCycles, Gates, EdgesFixed, Prizes, Swept;
    var p, at := Position(s, where), Standing(s, where);
    assert Play(s, where, []) == (s, where);
    if where == R_INVENTORY {
      var back := Act(p, s, where, Typed(VInventory, ""));
    }
    var t := SetOut(p, s, at);
    AreaListed(AreaOf(at));
    PrizesStayWithin(s, at, {Main, AreaOf(at)}, t, {Main, AreaOf(at)});
    var won := WinFromHome(p, t, {Main, AreaOf(at)});
    turns :| Play(s, where, turns) == (won, NONE);
  }

  // ----- new games -----

  lemma NewGameWinnable(s: State)
    requires s.Shaped() && forall o: ObjId :: s.obj[o].loc == StartRoom(o)
    ensures Winnable(s, START_ROOM)
  {
    hide Opens, Prizes, StartRoom;
    AreaListed(AreaOf(START_ROOM));
    SpreadClosed(s, START_ROOM, {Main, AreaOf(START_ROOM)});
    PrizesFromStart(s, Within(s, START_ROOM));
  }

  lemma PrizesFromStart(s: State, a: set<Area>)
    requires s.Shaped() && forall o: ObjId :: s.obj[o].loc == StartRoom(o)
    requires Closed(s, START_ROOM, a)
    ensures Prizes(s, a)
  {
    assert Opens(s, START_ROOM, a, Csl);
    assert CanDrive(s, START_ROOM, a) && CanHaveGps(s, a);
    assert Opens(s, START_ROOM, a, Allerton);
    assert Opens(s, START_ROOM, a, Antarctica);
  }

  /** A world in which a game may start. */
  ghost predicate NewWorld(s: State) {
    exists media: Media, rnds: seq<Rand> ::
      media.Valid() && |rnds| == N_OBJECTS && s == Built(media, rnds, N_OBJECTS)
  }

  lemma NewWorldsExist()
    ensures exists s :: NewWorld(s)
  {
    var empty := Image(0, 0, []);
    var media := Media(seq(N_ROOMS + N_SWAPS, _ => empty), seq(N_OBJECTS, _ => empty));
    var rnds := seq(N_OBJECTS, _ => DRAWS);
    assert NewWorld(Built(media, rnds, N_OBJECTS));
  }

  lemma NewWorldsAlike(s: State, t: State)
    requires NewWorld(s) && NewWorld(t)
    ensures Invariant(s, START_ROOM) && Invariant(t, START_ROOM) && Alike(s, t)
    ensures forall o: ObjId :: s.obj[o].loc == StartRoom(o)
  {
    hide Built, Invariant, StartRoom;
    var media: Media, rnds: seq<Rand> :|
      media.Valid() && |rnds| == N_OBJECTS && s == Built(media, rnds, N_OBJECTS);
    var media': Media, rnds': seq<Rand> :|
      media'.Valid() && |rnds'| == N_OBJECTS && t == Built(media', rnds', N_OBJECTS);
    NewGame(media, rnds);
    NewGame(media', rnds');
    BuiltWorld(media, rnds, N_OBJECTS);
    BuiltAlike(media, rnds, media', rnds', N_OBJECTS);
  }

  /** There are actions that win every game, whatever the images, wherever the objects were
      placed, and whatever chance does meanwhile. */
  lemma EveryGameCanBeWon() returns (deeds: seq<Deed>)
    ensures forall s | NewWorld(s) :: Invariant(s, START_ROOM) && Wins(s, START_ROOM, deeds)
  {
    hide NewWorld, Invariant, Wins, Play;
    NewWorldsExist();
    var s0 :| NewWorld(s0);
    NewWorldsAlike(s0, s0);
    NewWorldWinnable(s0);
    var turns := WayToWin(s0, START_ROOM);
    deeds := DeedsOf(turns);
    forall s | NewWorld(s)
      ensures Invariant(s, START_ROOM) && Wins(s, START_ROOM, deeds)
    {
      NewWorldsAlike(s0, s);
      OneRunTellsAll(s0, START_ROOM, s, turns);
    }
  }

  lemma NewWorldWinnable(s: State)
    requires Invariant(s, START_ROOM) && forall o: ObjId :: s.obj[o].loc == StartRoom(o)
    ensures Winnable(s, Standing(s, START_ROOM))
  {
    NewGameWinnable(s);
  }

  /** These actions lead, whatever chance does, to a position from which nothing wins any more. */
  ghost predicate Spoils(s: State, where: RoomRef, deeds: seq<Deed>)
    requires Invariant(s, where)
  {
    forall turns: seq<Turn> | DeedsOf(turns) == deeds ::
      var (t, at) := Play(s, where, turns); at != NONE && Lost(t, at)
  }

  ghost predicate Lost(s: State, where: RoomRef)
    requires Invariant(s, where)
  {
    forall more: seq<Turn> :: Play(s, where, more).1 != NONE
  }

  lemma LostAlike(s: State, t: State, where: RoomRef)
    requires Invariant(s, where) && Invariant(t, where) && Alike(s, t) && Lost(s, where)
    ensures Lost(t, where)
  {
    hide Alike, Invariant, Play;
    forall more: seq<Turn>
      ensures Play(t, where, more).1 != NONE
    {
      PlayAlike(s, t, where, more, more);
    }
  }

  /** And there are actions that spoil every game: the player leaves the I-card inside CSL. */
  lemma EveryGameCanBeSpoilt() returns (deeds: seq<Deed>)
    ensures forall s | NewWorld(s) :: Invariant(s, START_ROOM) && Spoils(s, START_ROOM, deeds)
  {
    hide NewWorld, Invariant, Spoils;
    NewWorldsExist();
    var s0 :| NewWorld(s0);
    NewWorldsAlike(s0, s0);
    var turns := SpoiltRun(s0);
    deeds := DeedsOf(turns);
    forall s | NewWorld(s)
      ensures Invariant(s, START_ROOM) && Spoils(s, START_ROOM, deeds)
    {
      NewWorldsAlike(s0, s);
      SpoiltAlike(s0, s, turns);
    }
  }

  lemma SpoiltAlike(s: State, t: State, turns: seq<Turn>)
    requires Invariant(s, START_ROOM) && Invariant(t, START_ROOM) && Alike(s, t)
    requires var (u, at) := Play(s, START_ROOM, turns); at != NONE && Lost(u, at)
    ensures Spoils(t, START_ROOM, DeedsOf(turns))
  {
    hide Alike, Invariant, Play, Lost, DeedsOf;
    var (u, at) := Play(s, START_ROOM, turns);
    forall turns': seq<Turn> | DeedsOf(turns') == DeedsOf(turns)
      ensures var (u', at') := Play(t, START_ROOM, turns'); at' != NONE && Lost(u', at')
    {
      PlayAlike(s, t, START_ROOM, turns, turns');
      LostAlike(u, Play(t, START_ROOM, turns').0, at);
    }
  }

  lemma SpoiltRun(s: State) returns (turns: seq<Turn>)
    requires Invariant(s, START_ROOM) && forall o: ObjId :: s.obj[o].loc == StartRoom(o)
    ensures var (t, at) := Play(s, START_ROOM, turns); at != NONE && Lost(t, at)
  {
    hide Winnable, CarCycle, ItemCycles, Gates, EdgesFixed, StartRoom;
    var p := Position(s, START_ROOM);
    assert Play(s, START_ROOM, []) == (s, START_ROOM);
    var t := LeaveCardInCsl(p);
    turns :| Play(s, START_ROOM, turns) == (t, R_CSL_DOOR);
    CardInCslNotWinnable(t);
    forall more: seq<Turn>
      ensures Play(t, R_CSL_DOOR, more).1 != NONE
    {
      NotWinnableNeverWon(t, R_CSL_DOOR, more);
    }
  }

  /** The player fetches the I-card and walks into CSL with it. */
  lemma TakeCardToCsl(p: Position) returns (t: State)
    requires Leads(p, p.s, HOME) && p.s.Shaped() && forall o: ObjId :: p.s.obj[o].loc == StartRoom(o)
    ensures Leads(p, t, R_CSL_LOBBY) && t.Shaped() && t.In(O_MP2, R_CSLLOUNGE)
    ensures forall o: ObjId :: t.In(o, R_INVENTORY) <==> o == O_ICARD
  {
    hide CarCycle, ItemCycles, Gates, EdgesFixed, Leads, Name, Same, ToInventory, InsertAt;
    WalkOut(p, p.s, R_BARDEEN);
    var took := Act(p, p.s, R_BARDEEN, Typed(VGet, Name(O_ICARD)));
    assert p.s.ListAgrees(R_BARDEEN);
    SomethingFound(p.s.contents[R_BARDEEN], O_ICARD);
    ToInventoryMoves(p.s, O_ICARD, DRAWS);
    t := took.s;
    WalkHome(p, t, R_BARDEEN);
    WalkOut(p, t, R_CSL_DOOR);
    Unlock(p, t, R_CSL_DOOR, R_CSL_LOBBY);
  }

  lemma LeaveCardInCsl(p: Position) returns (t: State)
    requires Leads(p, p.s, HOME) && p.s.Shaped() && forall o: ObjId :: p.s.obj[o].loc == StartRoom(o)
    ensures Leads(p, t, R_CSL_DOOR) && t.Shaped()
    ensures t.In(O_ICARD, R_CSL_LOBBY) && t.In(O_MP2, R_CSLLOUNGE)
  {
    hide CarCycle, ItemCycles, Gates, EdgesFixed, Leads, Name, Same, ToInventory, InsertAt;
    var s := TakeCardToCsl(p);
    var dropped := Act(p, s, R_CSL_LOBBY, Typed(VDrop, Name(O_ICARD)));
    assert s.ListAgrees(R_INVENTORY) && s.In(O_ICARD, R_INVENTORY);
    SomethingFound(s.contents[R_INVENTORY], O_ICARD);
    assert s.In(FindByName(s.contents[R_INVENTORY], Name(O_ICARD)), R_INVENTORY);
    var x, y := RandomX(s, O_ICARD, R_CSL_LOBBY, DRAWS), RandomY(s, O_ICARD, R_CSL_LOBBY, DRAWS);
    InsertMoves(s, O_ICARD, R_CSL_LOBBY, x, y);
    t := dropped.s;
    OneStep(p, t, R_CSL_LOBBY, E);
  }

  lemma CardInCslNotWinnable(s: State)
    requires s.Shaped() && s.In(O_ICARD, R_CSL_LOBBY) && s.In(O_MP2, R_CSLLOUNGE)
    ensures !Winnable(s, R_CSL_DOOR)
  {
    var outside := AllAreas() - {Csl, Lab};
    forall d | Opens(s, R_CSL_DOOR, outside, d)
      ensures d in outside
    {
      AreaListed(d);
    }
    SpreadLeast(s, R_CSL_DOOR, {Main, AreaOf(R_CSL_DOOR)}, outside);
  }
}
