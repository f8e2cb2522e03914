/** When a game of the adventure can still be won: which areas the player can still get into,
    and that what is out of reach stays out of reach. */
module WorldProspects {
  import opened WorldTables
  import opened WorldSpec
  import opened WorldRuns

  /** The parts of the world between which doors, the car and the plane stand. */
  datatype Area = Main | Csl | Lab | CleanRoom | Beckman | Allerton | Airport | Antarctica

  /** The inventory counts as part of the main area: what is carried can be taken anywhere. */
  function AreaOf(r: RoomId): Area {
    if InCsl(r) then Csl
    else if r == R_IN_395LAB then Lab
    else if r == R_IN_CLEANR then CleanRoom
    else if InBeckman(r) then Beckman
    else if AtAllerton(r) then Allerton
    else if AtWillard(r) then Airport
    else if Airborne(r) then Antarctica
    else Main
  }

  // ----- what can be had from some areas -----

  predicate Has(s: State, a: set<Area>, o: ObjId)
    requires s.Shaped()
  {
    s.obj[o].loc != NONE && AreaOf(s.obj[o].loc) in a
  }

  predicate CanWearSuit(s: State, a: set<Area>)
    requires s.Shaped()
  {
    WearingSuit in s.flags || Has(s, a, O_BUNNYSUIT)
  }

  /** The robot is flashed in the lab, into which the I-card lets the player, or where the player already is. */
  predicate CanHaveRobot(s: State, at: RoomId, a: set<Area>)
    requires s.Shaped()
  {
    || Has(s, a, O_ROBOT_LIVE)
    || (Has(s, a, O_ROBOT_DEAD) && Has(s, a, O_ICARD))
    || (at == R_IN_395LAB && s.Near(O_ROBOT_DEAD, at))
  }

  predicate CanHaveGps(s: State, a: set<Area>)
    requires s.Shaped()
  {
    Has(s, a, O_GPS_GOOD) || (Has(s, a, O_GPS_BAD) && Has(s, a, O_GPS_SPEC) && CanWearSuit(s, a))
  }

  /** The empty battery comes out of the car, which the key opens; it is charged in the Beckman Institute. */
  predicate CanHavePower(s: State, at: RoomId, a: set<Area>)
    requires s.Shaped()
  {
    || Has(s, a, O_BATT_FULL)
    || ((Has(s, a, O_BATT_EMPTY) || Has(s, a, O_BATT_CAR) || Has(s, a, O_CAR_KEY)) && CanHaveRobot(s, at, a))
    || (InBeckman(at) && (s.In(O_BATT_EMPTY, R_INVENTORY) || InBeckman(s.obj[O_BATT_EMPTY].loc)))
  }

  predicate CanDrive(s: State, at: RoomId, a: set<Area>)
    requires s.Shaped()
  {
    CarFixed in s.flags || CanHavePower(s, at, a)
  }

  predicate CanFly(s: State, a: set<Area>)
    requires s.Shaped()
  {
    s.enter[R_COCKPIT] != NONE || Has(s, a, O_MIMO_CARD)
  }

  /** With what there is in the areas a, the player can get into area d. */
  predicate Opens(s: State, at: RoomId, a: set<Area>, d: Area)
    requires s.Shaped()
  {
    match d
    case Main => true
    case Csl => Has(s, a, O_ICARD)
    case Lab => Has(s, a, O_ICARD)
    case CleanRoom => CanWearSuit(s, a)
    case Beckman => CanHaveRobot(s, at, a)
    case Allerton => CanDrive(s, at, a) && CanHaveGps(s, a)
    case Airport => CanDrive(s, at, a)
    case Antarctica => CanDrive(s, at, a) && CanFly(s, a)
  }

  /** The MP2, the book and Tux: what has to be brought to the 391 lab. */
  predicate Prizes(s: State, a: set<Area>)
    requires s.Shaped()
  {
    && Has(s, a, O_MP2) && (Has(s, a, O_BOOK_C) || s.In(O_BOOK_C, NONE))
    && Has(s, a, O_TUX) && (LuredTux in s.flags || Has(s, a, O_FISH))
  }

  function AllAreas(): set<Area> {
    {Main, Csl, Lab, CleanRoom, Beckman, Allerton, Airport, Antarctica}
  }

  lemma AreaListed(d: Area)
    ensures d in AllAreas()
  {
  }

  /** All areas that open up one after the other, starting from those in a. */
  function Spread(s: State, at: RoomId, a: set<Area>): set<Area>
    requires s.Shaped() && a <= AllAreas()
    decreases AllAreas() - a
  {
    var b := a + set d | d in AllAreas() && Opens(s, at, a, d);
    if b == a then a else Spread(s, at, b)
  }

  function Within(s: State, at: RoomId): set<Area>
    requires s.Shaped()
  {
    AreaListed(AreaOf(at));
    Spread(s, at, {Main, AreaOf(at)})
  }

  /** The player at room at can still win. */
  predicate Winnable(s: State, at: RoomId)
    requires s.Shaped()
  {
    Prizes(s, Within(s, at))
  }

  // ----- the areas within reach are the least closed set -----

  ghost predicate Closed(s: State, at: RoomId, a: set<Area>)
    requires s.Shaped()
  {
    Main in a && AreaOf(at) in a && forall d | Opens(s, at, a, d) :: d in a
  }

  lemma OpensMore(s: State, at: RoomId, a: set<Area>, b: set<Area>, d: Area)
    requires s.Shaped() && a <= b && Opens(s, at, a, d)
    ensures Opens(s, at, b, d)
  {
  }

  lemma {:induction false} SpreadLeast(s: State, at: RoomId, a: set<Area>, b: set<Area>)
    requires s.Shaped() && a <= b && a <= AllAreas() && Closed(s, at, b)
    ensures Spread(s, at, a) <= b
    decreases AllAreas() - a
  {
    var more := a + set d | d in AllAreas() && Opens(s, at, a, d);
    forall d | d in more
      ensures d in b
    {
      if d !in a {
        OpensMore(s, at, a, b, d);
      }
    }
    if more != a {
      SpreadLeast(s, at, more, b);
    }
  }

  lemma {:induction false} SpreadClosed(s: State, at: RoomId, a: set<Area>)
    requires s.Shaped() && a <= AllAreas() && Main in a && AreaOf(at) in a
    ensures a <= Spread(s, at, a) && Closed(s, at, Spread(s, at, a))
    decreases AllAreas() - a
  {
    hide Opens;
    var more := a + set d | d in AllAreas() && Opens(s, at, a, d);
    if more != a {
      SpreadClosed(s, at, more);
    } else {
      forall d | Opens(s, at, a, d)
        ensures d in a
      {
        AreaListed(d);
        assert d in more;
      }
    }
  }

  // ----- no action opens anything up -----

  /** From the areas a, (t, to) has no better prospects than (s, at). */
  ghost predicate NoBetter(s: State, at: RoomId, t: State, there: RoomId, a: set<Area>)
    requires s.Shaped() && t.Shaped()
  {
    && AreaOf(there) in a
    && (Has(t, a, O_ICARD) ==> Has(s, a, O_ICARD))
    && (CanWearSuit(t, a) ==> CanWearSuit(s, a))
    && (CanHaveRobot(t, there, a) ==> CanHaveRobot(s, at, a))
    && (CanHaveGps(t, a) ==> CanHaveGps(s, a))
    && (CanDrive(t, there, a) ==> CanDrive(s, at, a))
    && (CanFly(t, a) ==> CanFly(s, a))
    && (Prizes(t, a) ==> Prizes(s, a))
  }

  /** The outcome o is no improvement. */
  ghost predicate Hopeless(s: State, at: RoomId, o: Outcome, a: set<Area>)
    requires s.Shaped()
  {
    o.s.Shaped() && o.where != NONE && Standing(o.s, o.where) != NONE && NoBetter(s, at, o.s, Standing(o.s, o.where), a)
  }

  lemma StillNotWinnable(s: State, at: RoomId, t: State, there: RoomId)
    requires s.Shaped() && t.Shaped() && !Winnable(s, at) && NoBetter(s, at, t, there, Within(s, at))
    ensures !Winnable(t, there)
  {
    hide CanWearSuit, CanHaveRobot, CanHaveGps, CanDrive, CanFly, Has;
    var a := Within(s, at);
    AreaListed(AreaOf(at));
    AreaListed(AreaOf(there));
    SpreadClosed(s, at, {Main, AreaOf(at)});
    forall d | Opens(t, there, a, d)
      ensures d in a
    {
      assert Opens(s, at, a, d);
    }
    SpreadLeast(t, there, {Main, AreaOf(there)}, a);
    if Winnable(t, there) {
      PrizesMore(t, Within(t, there), a);
    }
  }

  lemma PrizesMore(s: State, a: set<Area>, b: set<Area>)
    requires s.Shaped() && a <= b && Prizes(s, a)
    ensures Prizes(s, b)
  {
  }

  /** Moving an object that can be had anyway to where the player is, or into the inventory, opens nothing up. */
  lemma MovingOpensNothing(s: State, t: State, o: ObjId, r: RoomId, at: RoomId, a: set<Area>)
    requires OnlyMoved(s, t, o, r) && Main in a && AreaOf(at) in a
    requires (r == R_INVENTORY && s.In(o, at)) || (r == at && s.In(o, R_INVENTORY))
    ensures NoBetter(s, at, t, at, a)
  {
  }

  lemma TrifleOpensNothing(s: State, t: State, o: ObjId, r: RoomRef, at: RoomId, a: set<Area>)
    requires OnlyMoved(s, t, o, r) && AreaOf(at) in a && (o == O_MTN_DEW || o == O_BOOK_WODE)
    ensures NoBetter(s, at, t, at, a)
  {
  }

  lemma ArrivalHopeless(s: State, where: RoomId, r: RoomId, rnd: Rand, a: set<Area>)
    requires Invariant(s, where) && r != R_INVENTORY && AreaOf(r) in a
    requires r == R_IN_395LAB || InBeckman(r) ==> r == Standing(s, where) || (InBeckman(r) && InBeckman(Standing(s, where)))
    ensures Hopeless(s, Standing(s, where), Arrive(s, r, rnd), a)
  {
  }

  /** An edge leads to an area that is open to a player who stands where it starts. */
  lemma EdgeIsOpen(s: State, where: RoomId, a: set<Area>, d: RoomRef)
    requires Invariant(s, where) && Closed(s, Standing(s, where), a)
    requires d != NONE && StaysInRegion(Standing(s, where), d) && d != R_IN_395LAB
    ensures AreaOf(d) in a
  {
  }

  lemma MovesHopeless(s: State, where: RoomId, rnd: Rand, a: set<Area>)
    requires Invariant(s, where) && Closed(s, Standing(s, where), a)
    ensures Hopeless(s, Standing(s, where), MoveLeft(s, where, rnd), a)
    ensures Hopeless(s, Standing(s, where), MoveRight(s, where, rnd), a)
  {
    EdgesStayInRegions(where);
    EdgesAvoidLab(where);
    if LeftOf(where) != NONE {
      EdgeIsOpen(s, where, a, LeftOf(where));
      ArrivalHopeless(s, where, LeftOf(where), rnd, a);
    }
    if RightOf(where) != NONE {
      EdgeIsOpen(s, where, a, RightOf(where));
      ArrivalHopeless(s, where, RightOf(where), rnd, a);
    }
  }

  lemma EdgesAvoidLab(r: RoomId)
    ensures LeftOf(r) != R_IN_395LAB && RightOf(r) != R_IN_395LAB && InitialEnter(r) != R_IN_395LAB
    ensures LeftOf(R_INVENTORY) == RightOf(R_INVENTORY) == NONE
  {
  }

  lemma EnterHopeless(s: State, where: RoomId, rnd: Rand, a: set<Area>)
    requires Invariant(s, where) && Closed(s, Standing(s, where), a)
    ensures Hopeless(s, Standing(s, where), Enter(s, where, rnd), a)
  {
    hide CarCycle, ItemCycles, State.ListAgrees;
    EdgesStayInRegions(where);
    EdgesAvoidLab(where);
    if where == R_COCKPIT && s.enter[where] != NONE {
      assert Opens(s, where, a, Antarctica);
      ArrivalHopeless(s, where, s.enter[where], rnd, a);
    } else if s.enter[where] != NONE {
      if where != R_INVENTORY {
        EdgeIsOpen(s, where, a, s.enter[where]);
      }
      ArrivalHopeless(s, where, s.enter[where], rnd, a);
    }
  }

  lemma BuyHopeless(s: State, where: RoomId, arg: string, rnd: Rand, a: set<Area>)
    requires Invariant(s, where) && Closed(s, Standing(s, where), a)
    ensures Hopeless(s, Standing(s, where), Buy(s, where, arg, rnd), a)
  {
    hide CarCycle, ItemCycles, Gates, EdgesFixed, State.ListAgrees, Remove, Insert, InsertAt, ToInventory;
    ToInventoryMoves(s, O_MTN_DEW, rnd);
    TrifleOpensNothing(s, ToInventory(s, O_MTN_DEW, rnd), O_MTN_DEW, R_INVENTORY, Standing(s, where), a);
  }

  lemma ChargeHopeless(s: State, where: RoomId, arg: string, rnd: Rand, a: set<Area>)
    requires Invariant(s, where) && Closed(s, Standing(s, where), a)
    ensures Hopeless(s, Standing(s, where), Charge(s, where, arg, rnd), a)
  {
    hide CarCycle, ItemCycles, Gates, EdgesFixed, State.ListAgrees, Remove, Insert, InsertAt, ToInventory;
    RemoveMoves(s, O_BATT_EMPTY);
    ToInventoryMoves(Remove(s, O_BATT_EMPTY), O_BATT_FULL, rnd);
  }

  lemma FlashHopeless(s: State, where: RoomId, arg: string, rnd: Rand, a: set<Area>)
    requires Invariant(s, where) && Closed(s, Standing(s, where), a)
    ensures Hopeless(s, Standing(s, where), Flash(s, where, arg, rnd), a)
  {
    hide CarCycle, ItemCycles, Gates, EdgesFixed, State.ListAgrees, Remove, Insert, InsertAt, ToInventory;
    RemoveMoves(s, O_ROBOT_DEAD);
    ToInventoryMoves(Remove(s, O_ROBOT_DEAD), O_ROBOT_LIVE, rnd);
  }

  lemma FixHopeless(s: State, where: RoomId, arg: string, rnd: Rand, a: set<Area>)
    requires Invariant(s, where) && Closed(s, Standing(s, where), a)
    ensures Hopeless(s, Standing(s, where), Fix(s, where, arg, rnd), a)
  {
    hide CarCycle, ItemCycles, EdgesFixed, State.ListAgrees, Remove, Insert, InsertAt, ToInventory;
    RemoveMoves(s, O_GPS_BAD);
    RemoveMoves(Remove(s, O_GPS_BAD), O_GPS_SPEC);
    ToInventoryMoves(Remove(Remove(s, O_GPS_BAD), O_GPS_SPEC), O_GPS_GOOD, rnd);
  }

  lemma DrinkHopeless(s: State, where: RoomId, arg: string, a: set<Area>)
    requires Invariant(s, where) && Closed(s, Standing(s, where), a)
    ensures Hopeless(s, Standing(s, where), Drink(s, where, arg), a)
  {
    hide CarCycle, ItemCycles, Gates, EdgesFixed, State.ListAgrees, Remove, Insert, InsertAt, ToInventory;
    RemoveMoves(s, O_MTN_DEW);
    TrifleOpensNothing(s, Remove(s, O_MTN_DEW), O_MTN_DEW, NONE, Standing(s, where), a);
  }

  lemma WearHopeless(s: State, where: RoomId, arg: string, a: set<Area>)
    requires Invariant(s, where) && Closed(s, Standing(s, where), a)
    ensures Hopeless(s, Standing(s, where), Wear(s, where, arg), a)
  {
    hide CarCycle, ItemCycles, Gates, EdgesFixed, State.ListAgrees, Remove, Insert, InsertAt, ToInventory;
    RemoveMoves(s, O_BUNNYSUIT);
  }

  lemma DropHopeless(s: State, where: RoomId, arg: string, rnd: Rand, a: set<Area>)
    requires Invariant(s, where) && Closed(s, Standing(s, where), a)
    ensures Hopeless(s, Standing(s, where), Drop(s, where, arg, rnd), a)
  {
    var at := Standing(s, where);
    FoundInRoom(s, R_INVENTORY, arg);
    var d := Find(s, R_INVENTORY, arg);
    if d != NONE {
      var t := Insert(s, d, at, rnd);
      InsertMoves(s, d, at, RandomX(s, d, at, rnd), RandomY(s, d, at, rnd));
      MovingOpensNothing(s, t, d, at, at, a);
    }
  }

  lemma TakeBatteryHopeless(s: State, where: RoomId, rnd: Rand, a: set<Area>)
    requires Invariant(s, where) && Closed(s, Standing(s, where), a)
    requires Standing(s, where) == R_CAR_SITE && s.In(O_BATT_CAR, R_CAR_SITE)
    ensures Hopeless(s, R_CAR_SITE, Outcome(ToInventory(Remove(s, O_BATT_CAR), O_BATT_EMPTY, rnd), where, RedrawRoom), a)
  {
    hide EdgesFixed, Gates, CarCycle, State.ListAgrees, Remove, Insert, InsertAt, ToInventory;
    RemoveMoves(s, O_BATT_CAR);
    ToInventoryMoves(Remove(s, O_BATT_CAR), O_BATT_EMPTY, rnd);
  }

  lemma TakeBookHopeless(s: State, where: RoomId, o: ObjId, rnd: Rand, a: set<Area>)
    requires Invariant(s, where) && Closed(s, Standing(s, where), a)
    requires (o == O_BOOK_C || o == O_BOOK_WODE) && s.In(o, NONE)
    ensures Hopeless(s, Standing(s, where), Outcome(ToInventory(s, o, rnd), where, RedrawRoom), a)
  {
    hide EdgesFixed, Gates, CarCycle, State.ListAgrees, Remove, Insert, InsertAt, ToInventory;
    ToInventoryMoves(s, o, rnd);
  }

  lemma GetHopeless(s: State, where: RoomId, arg: string, rnd: Rand, a: set<Area>)
    requires Invariant(s, where) && Closed(s, Standing(s, where), a)
    ensures Hopeless(s, Standing(s, where), Get(s, where, arg, rnd), a)
  {
    hide EdgesFixed, Gates, CarCycle, State.ListAgrees, Remove, Insert, InsertAt, ToInventory;
    var at := Standing(s, where);
    var sp := SpecialGet(s, at, arg);
    FoundInRoom(s, at, arg);
    var o := if sp.o != NONE then sp.o else Find(s, at, arg);
    if sp.o == O_BATT_EMPTY {
      TakeBatteryHopeless(s, where, rnd, a);
    } else if sp.o != NONE {
      TakeBookHopeless(s, where, o, rnd, a);
    } else if o != NONE {
      ToInventoryMoves(s, o, rnd);
      MovingOpensNothing(s, ToInventory(s, o, rnd), o, R_INVENTORY, at, a);
    }
  }

  lemma InstallHopeless(s: State, where: RoomId, arg: string, a: set<Area>)
    requires Invariant(s, where) && Closed(s, Standing(s, where), a)
    ensures Hopeless(s, Standing(s, where), Install(s, where, arg), a)
  {
    hide CarCycle, ItemCycles, Gates, State.ListAgrees, Remove, Insert, InsertAt, ToInventory;
    RemoveMoves(s, O_BATT_FULL);
    RemoveMoves(s, O_MIMO_CARD);
  }

  lemma OpenCarHopeless(s: State, where: RoomId, arg: string, rnd: Rand, a: set<Area>)
    requires Invariant(s, where) && Closed(s, Standing(s, where), a) && Same("car", arg)
    ensures Hopeless(s, Standing(s, where), Use(s, where, arg, rnd), a)
  {
    hide EdgesFixed, State.ListAgrees, Remove, Insert, InsertAt, ToInventory, Gates;
    if where == R_CAR_SITE {
      var t := SwapPhoto(s, where, SWAP_CAR);
      SameLists(s, t);
      RemoveMoves(t, O_CAR_KEY);
      InsertMoves(Remove(t, O_CAR_KEY), O_BATT_CAR, where, 265, 122);
    }
  }

  lemma LureHopeless(s: State, where: RoomId, arg: string, rnd: Rand, a: set<Area>)
    requires Invariant(s, where) && Closed(s, Standing(s, where), a) && !Same("car", arg)
    ensures Hopeless(s, Standing(s, where), Use(s, where, arg, rnd), a)
  {
    hide EdgesFixed, State.ListAgrees, Remove, Insert, InsertAt, ToInventory, CarCycle;
    RemoveMoves(s, O_FISH);
    ToInventoryMoves(Remove(s, O_FISH), O_TUX, rnd);
  }

  lemma UseHopeless(s: State, where: RoomId, arg: string, rnd: Rand, a: set<Area>)
    requires Invariant(s, where) && Closed(s, Standing(s, where), a)
    ensures Hopeless(s, Standing(s, where), Use(s, where, arg, rnd), a)
  {
    hide Hopeless, Invariant, Closed, Use;
    if Same("car", arg) {
      OpenCarHopeless(s, where, arg, rnd, a);
    } else {
      LureHopeless(s, where, arg, rnd, a);
    }
  }

  lemma GoHopeless(s: State, where: RoomId, arg: string, a: set<Area>)
    requires Invariant(s, where) && Closed(s, Standing(s, where), a)
    ensures Hopeless(s, Standing(s, where), Go(s, where, arg), a)
  {
    hide CarCycle, ItemCycles, State.ListAgrees;
    assert CarFixed in s.flags ==> Opens(s, Standing(s, where), a, Airport);
    assert CarFixed in s.flags && s.In(O_GPS_GOOD, R_INVENTORY) ==> Opens(s, Standing(s, where), a, Allerton);
  }

  lemma InventoryHopeless(s: State, where: RoomId, a: set<Area>)
    requires Invariant(s, where) && Closed(s, Standing(s, where), a)
    ensures Hopeless(s, Standing(s, where), Inventory(s, where), a)
  {
    hide CarCycle, ItemCycles, State.ListAgrees, Gates, EdgesFixed, Opens;
  }

  lemma SighHopeless(s: State, where: RoomId, a: set<Area>)
    requires Invariant(s, where) && Closed(s, Standing(s, where), a)
    ensures Hopeless(s, Standing(s, where), Sigh(s, where), a)
  {
    hide CarCycle, ItemCycles, State.ListAgrees, Gates, EdgesFixed, Opens;
  }

  /** "do" wins only with all the prizes in hand. */
  lemma DoHopeless(s: State, where: RoomId, arg: string, a: set<Area>)
    requires Invariant(s, where) && Closed(s, Standing(s, where), a)
    requires !Prizes(s, a)
    ensures Hopeless(s, Standing(s, where), Do(s, where, arg), a)
  {
  }

  lemma PerformHopeless(s: State, where: RoomId, deed: Deed, rnd: Rand, a: set<Area>)
    requires Invariant(s, where) && Closed(s, Standing(s, where), a) && !Prizes(s, a)
    ensures Hopeless(s, Standing(s, where), Perform(s, where, deed, rnd), a)
  {
    assert s.Shaped() && PlayerPlaced(s, where);
    hide Invariant, Closed, Prizes, Hopeless, State.Shaped, PlayerPlaced;
    match deed
    case GoLeft => MovesHopeless(s, where, rnd, a);
    case GoEnter => EnterHopeless(s, where, rnd, a);
    case GoRight => MovesHopeless(s, where, rnd, a);
    case Typed(verb, arg) =>
      match verb
      case VBuy => BuyHopeless(s, where, arg, rnd, a);
      case VCharge => ChargeHopeless(s, where, arg, rnd, a);
      case VDo => DoHopeless(s, where, arg, a);
      case VDrink => DrinkHopeless(s, where, arg, a);
      case VDrop => DropHopeless(s, where, arg, rnd, a);
      case VFix => FixHopeless(s, where, arg, rnd, a);
      case VFlash => FlashHopeless(s, where, arg, rnd, a);
      case VGet => GetHopeless(s, where, arg, rnd, a);
      case VGo => GoHopeless(s, where, arg, a);
      case VInstall => InstallHopeless(s, where, arg, a);
      case VInventory => InventoryHopeless(s, where, a);
      case VSigh => SighHopeless(s, where, a);
      case VUse => UseHopeless(s, where, arg, rnd, a);
      case VWear => WearHopeless(s, where, arg, a);
  }

  /** A game that is not winnable is never won. */
  lemma {:induction false} NotWinnableNeverWon(s: State, where: RoomId, turns: seq<Turn>)
    requires Invariant(s, where) && !Winnable(s, Standing(s, where))
    ensures Play(s, where, turns).1 != NONE
    decreases |turns|
  {
    hide Perform, Closed, Prizes, Spread, NoBetter, CarCycle, ItemCycles, Gates, EdgesFixed;
    if turns != [] {
      var at := Standing(s, where);
      var o := Perform(s, where, turns[0].deed, turns[0].rnd);
      AreaListed(AreaOf(at));
      SpreadClosed(s, at, {Main, AreaOf(at)});
      PerformHopeless(s, where, turns[0].deed, turns[0].rnd, Within(s, at));
      PerformKeeps(s, where, turns[0].deed, turns[0].rnd);
      StillNotWinnable(s, at, o.s, Standing(o.s, o.where));
      NotWinnableNeverWon(o.s, o.where, turns[1..]);
    }
  }
}
