/** What every action does to the adventure world, told by places and names: where each
    object ends up, and that nothing else changes. */
module WorldEffects {
  import opened WorldTables
  import opened WorldSpec
  import opened WorldRuns
  import opened Photo

  /** From s to t the objects listed went to the places given; nothing else changed but, perhaps, accomplishments. */
  ghost predicate Moved(s: State, t: State, moves: map<ObjId, RoomRef>, flags: set<Flag>) {
    && t.WellFormed()
    && t.media == s.media && t.enter == s.enter && t.view == s.view && t.swap == s.swap && t.flags == flags
    && |t.obj| == |s.obj| == N_OBJECTS
    && forall o: ObjId :: if o in moves then t.obj[o].loc == moves[o] else t.obj[o] == s.obj[o]
  }

  /** Nothing happened; what was typed stays to be edited exactly if it was not understood. */
  ghost predicate Refused(s: State, t: Outcome, understood: bool) {
    t.s == s && t.action == if understood then DiscardText else AllowEdit
  }

  /** o was picked up, and is all that moved. */
  ghost predicate PickedUp(s: State, t: State, o: ObjId) {
    Moved(s, t, map[o := R_INVENTORY], s.flags)
  }

  /** Carried, or lying in the room. */
  ghost predicate AtHand(s: State, o: ObjId, where: RoomId)
    requires s.Shaped()
  {
    s.obj[o].loc == R_INVENTORY || s.obj[o].loc == where
  }

  /** The room the player stands in, also while looking at the inventory. */
  ghost predicate StandsIn(s: State, where: RoomId, at: RoomRef)
    requires s.Shaped()
  {
    at == if where == R_INVENTORY then s.enter[R_INVENTORY] else where
  }

  /** The first object in the list that goes by the name. */
  ghost predicate FirstNamed(q: seq<ObjId>, arg: string, k: ObjRef) {
    if k == NONE then forall i | 0 <= i < |q| :: !Same(arg, Name(q[i]))
    else exists i | 0 <= i < |q| :: q[i] == k && Same(arg, Name(k)) && forall j | 0 <= j < i :: !Same(arg, Name(q[j]))
  }

  lemma {:induction false} FoundIsFirst(q: seq<ObjId>, arg: string)
    ensures FirstNamed(q, arg, FindByName(q, arg))
  {
    hide Same, Name;
    if q != [] && !Same(arg, Name(q[0])) {
      FoundIsFirst(q[1..], arg);
      var k := FindByName(q, arg);
      if k != NONE {
        var i :| 0 <= i < |q[1..]| && q[1..][i] == k && Same(arg, Name(k))
                 && forall j | 0 <= j < i :: !Same(arg, Name(q[1..][j]));
        assert q[i + 1] == k;
        assert forall j | 0 < j < i + 1 :: q[j] == q[1..][j - 1];
      } else {
        assert forall i | 0 < i < |q| :: q[i] == q[1..][i - 1];
      }
    }
  }

  lemma OneMoved(s: State, t: State, o: ObjId, r: RoomRef)
    requires OnlyMoved(s, t, o, r)
    ensures Moved(s, t, map[o := r], s.flags)
  {
  }

  // ----- picking up and dropping -----

  /** "drop": the first carried object of that name goes to the front of the list of the room where the
      player stands; if there is none, nothing happens. */
  lemma DropDoes(s: State, where: RoomId, arg: string, rnd: Rand, at: RoomId)
    requires s.WellFormed() && PlayerPlaced(s, where) && StandsIn(s, where, at)
    ensures var t := Perform(s, where, Typed(VDrop, arg), rnd);
            && t.where == where
            && exists k: ObjRef ::
                 && FirstNamed(s.contents[R_INVENTORY], arg, k)
                 && if k == NONE then t.s == s && t.action == AllowEdit
                    else Moved(s, t.s, map[k := at], s.flags) && t.s.contents[at] == [k] + s.contents[at]
                         && t.action == RedrawRoom
  {
    hide Same, Name;
    var k := Find(s, R_INVENTORY, arg);
    FoundIsFirst(s.contents[R_INVENTORY], arg);
    FoundInRoom(s, R_INVENTORY, arg);
    if k != NONE {
      var x, y := RandomX(s, k, at, rnd), RandomY(s, k, at, rnd);
      InsertMoves(s, k, at, x, y);
      OneMoved(s, InsertAt(s, k, at, x, y), k, at);
    }
  }

  /** "get": a book asked for at the reserve desk, the course book after lunch and another one before; the
      battery under the hood; or the first object of that name where the player stands, but Tux only
      once he has been lured. */
  lemma GetDoes(s: State, where: RoomId, arg: string, rnd: Rand, at: RoomId)
    requires s.WellFormed() && PlayerPlaced(s, where) && StandsIn(s, where, at)
    ensures var t := Perform(s, where, Typed(VGet, arg), rnd);
            var book := if HasEaten in s.flags then O_BOOK_C else O_BOOK_WODE;
            && t.where == where
            && if at == R_RESERVE && Same("book", arg) && s.obj[book].loc == NONE then
                 PickedUp(s, t.s, book) && t.action == RedrawRoom
               else if at == R_CAR_SITE && s.obj[O_BATT_CAR].loc == R_CAR_SITE then
                 Moved(s, t.s, map[O_BATT_CAR := NONE, O_BATT_EMPTY := R_INVENTORY], s.flags) && t.action == RedrawRoom
               else
                 exists k: ObjRef ::
                   && FirstNamed(s.contents[at], arg, k)
                   && if k == NONE || (k == O_TUX && LuredTux !in s.flags) then Refused(s, t, k != NONE)
                      else PickedUp(s, t.s, k) && t.action == RedrawRoom
  {
    hide Same, Name, Remove, ToInventory;
    var sp := SpecialGet(s, at, arg);
    if sp.o == O_BATT_EMPTY {
      RemoveMoves(s, O_BATT_CAR);
      ToInventoryMoves(sp.s, O_BATT_EMPTY, rnd);
    } else if sp.o != NONE {
      ToInventoryMoves(s, sp.o, rnd);
      OneMoved(s, ToInventory(s, sp.o, rnd), sp.o, R_INVENTORY);
    } else {
      var k := Find(s, at, arg);
      FoundIsFirst(s.contents[at], arg);
      if k != NONE {
        ToInventoryMoves(s, k, rnd);
        OneMoved(s, ToInventory(s, k, rnd), k, R_INVENTORY);
      }
    }
  }

  // ----- motions -----

  /** Arriving somewhere changes nothing but, for every second number drawn, the photo of the bridge. */
  ghost predicate Arrived(s: State, t: State, r: RoomId, rnd: Rand)
    requires s.Shaped()
  {
    if r == R_CIRCLE_N && rnd.first % 2 == 0 then
      && t == s.(view := t.view, swap := t.swap) && |t.view| == N_ROOMS && |t.swap| == N_SWAPS
      && t.view[R_CIRCLE_N] == s.swap[0] && t.swap[0] == s.view[R_CIRCLE_N] && t.swap[1] == s.swap[1]
      && forall v: RoomId | v != R_CIRCLE_N :: t.view[v] == s.view[v]
    else t == s
  }

  /** Left, right and "enter" lead to the neighbour on that side, if there is one. */
  lemma MotionsLead(s: State, where: RoomId, rnd: Rand)
    requires s.Shaped() && PlayerPlaced(s, where)
    ensures var t := Perform(s, where, GoLeft, rnd);
            if LeftOf(where) == NONE then Refused(s, t, false) && t.where == where
            else t.action == ChangeRoom && t.where == LeftOf(where) && Arrived(s, t.s, LeftOf(where), rnd)
    ensures var t := Perform(s, where, GoRight, rnd);
            if RightOf(where) == NONE then Refused(s, t, false) && t.where == where
            else t.action == ChangeRoom && t.where == RightOf(where) && Arrived(s, t.s, RightOf(where), rnd)
    ensures var t := Perform(s, where, GoEnter, rnd);
            s.enter[where] != NONE ==>
              t.action == ChangeRoom && t.where == s.enter[where] && Arrived(s, t.s, s.enter[where], rnd)
  {
    hide LeftOf, RightOf;
  }

  /** Where there is no edge, "enter" opens the four locked doors, each with its own key, and nothing else. */
  lemma DoorsOpen(s: State, where: RoomId, rnd: Rand)
    requires s.Shaped() && PlayerPlaced(s, where) && s.enter[where] == NONE
    ensures var t := Perform(s, where, GoEnter, rnd);
            && t.s == s && t.action == (if t.where == where then AllowEdit else ChangeRoom)
            && (t.where == R_IN_CLEANR && where != R_IN_CLEANR <==> where == R_BY_CLEANR && WearingSuit in s.flags)
            && (t.where == R_IN_395LAB && where != R_IN_395LAB
                <==> where == R_BY_395LAB && s.obj[O_ICARD].loc == R_INVENTORY)
            && (t.where == R_CSL_LOBBY && where != R_CSL_LOBBY
                <==> where == R_CSL_DOOR && s.obj[O_ICARD].loc == R_INVENTORY)
            && (t.where == R_BECKLOBBY && where != R_BECKLOBBY
                <==> where == R_BECK_DOOR && s.obj[O_ROBOT_LIVE].loc == R_INVENTORY)
            && (t.where in {where, R_IN_CLEANR, R_IN_395LAB, R_CSL_LOBBY, R_BECKLOBBY})
  {
  }

  /** From a room, the inventory is shown and the room remembered; from the inventory, the way leads back. */
  lemma InventoryDoes(s: State, where: RoomId, arg: string, rnd: Rand)
    requires s.Shaped() && PlayerPlaced(s, where)
    ensures var t := Perform(s, where, Typed(VInventory, arg), rnd);
            t.action == ChangeRoom &&
            if where == R_INVENTORY then t.s == s && t.where == s.enter[R_INVENTORY]
            else
              && t.where == R_INVENTORY && t.s == s.(enter := t.s.enter) && |t.s.enter| == N_ROOMS
              && t.s.enter[R_INVENTORY] == where
              && (forall r: RoomId | r != R_INVENTORY :: t.s.enter[r] == s.enter[r])
  {
  }

  /** Looking at the inventory and back leads to the same room, with the same world. */
  lemma InventoryAndBack(s: State, where: RoomId, arg: string, rnd: Rand)
    requires s.Shaped() && where != R_INVENTORY
    ensures var t := Perform(s, where, Typed(VInventory, arg), rnd).s;
            && t.Shaped() && PlayerPlaced(t, R_INVENTORY)
            && var u := Perform(t, R_INVENTORY, Typed(VInventory, arg), rnd);
               u.where == where && u.s == t && t == s.(enter := s.enter[R_INVENTORY := where])
  {
  }

  /** The car goes where it is told from where it stands, if it runs; to Allerton only with the repaired GPS. */
  lemma GoDoes(s: State, where: RoomId, arg: string, rnd: Rand)
    requires s.Shaped() && PlayerPlaced(s, where)
    ensures var t := Perform(s, where, Typed(VGo, arg), rnd);
            && t.s == s
            && (t.action == if t.where != where then ChangeRoom
                            else if Same("allerton", arg) || Same("willard", arg)
                                    || Same("airport", arg) || Same("campus", arg) then DiscardText
                            else AllowEdit)
            && (t.where == where || t.where == R_ALLERTON || t.where == R_WILLARD || t.where == R_CAR_SITE)
            && (t.where == R_ALLERTON && where != R_ALLERTON
                <==> Same("allerton", arg) && (where == R_WILLARD || where == R_CAR_SITE)
                     && CarFixed in s.flags && s.obj[O_GPS_GOOD].loc == R_INVENTORY)
            && (t.where == R_WILLARD && where != R_WILLARD
                <==> (Same("willard", arg) || Same("airport", arg)) && (where == R_ALLERTON || where == R_CAR_SITE)
                     && CarFixed in s.flags)
            && (t.where == R_CAR_SITE && where != R_CAR_SITE
                <==> Same("campus", arg) && (where == R_ALLERTON || where == R_WILLARD))
  {
  }

  // ----- things that turn into others -----

  /** Dew comes out of the machine if there is none at hand; lunch is had at Cocomero's. */
  lemma BuyDoes(s: State, where: RoomId, arg: string, rnd: Rand)
    requires s.WellFormed() && PlayerPlaced(s, where)
    ensures var t := Perform(s, where, Typed(VBuy, arg), rnd);
            && t.where == where
            && if Same("dew", arg) && where == R_EVRT_VEND && !AtHand(s, O_MTN_DEW, where) then
                 PickedUp(s, t.s, O_MTN_DEW) && t.action == RedrawRoom
               else if Same("yogurt", arg) && where == R_IN_COCOMR then
                 Moved(s, t.s, map[], s.flags + {HasEaten}) && t.action == DiscardText
               else Refused(s, t, Same("dew", arg) || Same("yogurt", arg))
  {
    hide Remove, ToInventory;
    ToInventoryMoves(s, O_MTN_DEW, rnd);
    OneMoved(s, ToInventory(s, O_MTN_DEW, rnd), O_MTN_DEW, R_INVENTORY);
    SameLists(s, s.(flags := s.flags + {HasEaten}));
  }

  /** Dew that is drunk is gone. */
  lemma DrinkDoes(s: State, where: RoomId, arg: string, rnd: Rand)
    requires s.WellFormed() && PlayerPlaced(s, where)
    ensures var t := Perform(s, where, Typed(VDrink, arg), rnd);
            && t.where == where
            && if Same("dew", arg) && AtHand(s, O_MTN_DEW, where) then
                 Moved(s, t.s, map[O_MTN_DEW := NONE], s.flags) && t.action == RedrawRoom
               else Refused(s, t, Same("dew", arg))
  {
    hide Remove;
    RemoveMoves(s, O_MTN_DEW);
    OneMoved(s, Remove(s, O_MTN_DEW), O_MTN_DEW, NONE);
  }

  /** Lunch can also be had at Za's. */
  lemma SighDoes(s: State, where: RoomId, arg: string, rnd: Rand)
    requires s.WellFormed() && PlayerPlaced(s, where)
    ensures var t := Perform(s, where, Typed(VSigh, arg), rnd);
            t.where == where && t.action == DiscardText
            && Moved(s, t.s, map[], if where == R_BY_ZAS then s.flags + {HasEaten} else s.flags)
  {
    SameLists(s, Sigh(s, where).s);
  }

  /** The empty battery is charged by the MRI, and carried. */
  lemma ChargeDoes(s: State, where: RoomId, arg: string, rnd: Rand)
    requires s.WellFormed() && PlayerPlaced(s, where)
    ensures var t := Perform(s, where, Typed(VCharge, arg), rnd);
            && t.where == where
            && if && Same("battery", arg) && where == R_BECK_MRI
                  && AtHand(s, O_BATT_EMPTY, where) && !AtHand(s, O_BATT_FULL, where) then
                 Moved(s, t.s, map[O_BATT_EMPTY := NONE, O_BATT_FULL := R_INVENTORY], s.flags) && t.action == RedrawRoom
               else Refused(s, t, Same("battery", arg))
  {
    hide Remove, ToInventory;
    RemoveMoves(s, O_BATT_EMPTY);
    ToInventoryMoves(Remove(s, O_BATT_EMPTY), O_BATT_FULL, rnd);
  }

  /** The dead robot is flashed in the 395 lab, and lives and is carried. */
  lemma FlashDoes(s: State, where: RoomId, arg: string, rnd: Rand)
    requires s.WellFormed() && PlayerPlaced(s, where)
    ensures var t := Perform(s, where, Typed(VFlash, arg), rnd);
            && t.where == where
            && if && Same("robot", arg) && where == R_IN_395LAB
                  && AtHand(s, O_ROBOT_DEAD, where) && !AtHand(s, O_ROBOT_LIVE, where) then
                 Moved(s, t.s, map[O_ROBOT_DEAD := NONE, O_ROBOT_LIVE := R_INVENTORY], s.flags) && t.action == RedrawRoom
               else Refused(s, t, Same("robot", arg))
  {
    hide Remove, ToInventory;
    RemoveMoves(s, O_ROBOT_DEAD);
    ToInventoryMoves(Remove(s, O_ROBOT_DEAD), O_ROBOT_LIVE, rnd);
  }

  /** The broken GPS and its specification become a working one in the clean room. */
  lemma FixDoes(s: State, where: RoomId, arg: string, rnd: Rand)
    requires s.WellFormed() && PlayerPlaced(s, where)
    ensures var t := Perform(s, where, Typed(VFix, arg), rnd);
            && t.where == where
            && if && Same("gps", arg) && where == R_IN_CLEANR && AtHand(s, O_GPS_BAD, where)
                  && AtHand(s, O_GPS_SPEC, where) && !AtHand(s, O_GPS_GOOD, where) then
                 Moved(s, t.s, map[O_GPS_BAD := NONE, O_GPS_SPEC := NONE, O_GPS_GOOD := R_INVENTORY], s.flags)
                 && t.action == ChangeRoom
               else Refused(s, t, Same("gps", arg))
  {
    hide Remove, ToInventory;
    RemoveMoves(s, O_GPS_BAD);
    var t := Remove(s, O_GPS_BAD);
    RemoveMoves(t, O_GPS_SPEC);
    ToInventoryMoves(Remove(t, O_GPS_SPEC), O_GPS_GOOD, rnd);
  }

  /** The suit is put on, and is no longer a thing. */
  lemma WearDoes(s: State, where: RoomId, arg: string, rnd: Rand)
    requires s.WellFormed() && PlayerPlaced(s, where)
    ensures var t := Perform(s, where, Typed(VWear, arg), rnd);
            && t.where == where
            && if Same("bunnysuit", arg) && AtHand(s, O_BUNNYSUIT, where) then
                 Moved(s, t.s, map[O_BUNNYSUIT := NONE], s.flags + {WearingSuit}) && t.action == RedrawRoom
               else Refused(s, t, Same("bunnysuit", arg))
  {
    hide Remove;
    RemoveMoves(s, O_BUNNYSUIT);
    SameLists(Remove(s, O_BUNNYSUIT), Remove(s, O_BUNNYSUIT).(flags := s.flags + {WearingSuit}));
  }

  /** The game is won with the course book and the MP2 in hand and Tux in the lab, and not otherwise. */
  lemma DoDoes(s: State, where: RoomId, arg: string, rnd: Rand)
    requires s.Shaped() && PlayerPlaced(s, where)
    ensures var t := Perform(s, where, Typed(VDo, arg), rnd);
            && t.s == s
            && (t.action == if t.where == NONE then ChangeRoom
                            else if where == R_IN_391LAB && (Same("391", arg) || Same("mp2", arg)) then DiscardText
                            else AllowEdit)
            && (t.where == where || t.where == NONE)
            && (t.where == NONE
                <==> where == R_IN_391LAB && (Same("391", arg) || Same("mp2", arg))
                     && s.obj[O_BOOK_C].loc == R_INVENTORY && s.obj[O_MP2].loc == R_INVENTORY
                     && s.obj[O_TUX].loc == R_IN_391LAB)
  {
  }

  /** The fish is given to Tux, who comes along. */
  lemma LureDoes(s: State, where: RoomId, arg: string, rnd: Rand)
    requires s.WellFormed() && PlayerPlaced(s, where) && !Same("car", arg)
    ensures var t := Perform(s, where, Typed(VUse, arg), rnd);
            && t.where == where
            && if Same("fish", arg) && where == R_REM_LAB && AtHand(s, O_FISH, where) then
                 Moved(s, t.s, map[O_FISH := NONE, O_TUX := R_INVENTORY], s.flags + {LuredTux}) && t.action == RedrawRoom
               else Refused(s, t, Same("fish", arg))
  {
    hide Remove, ToInventory;
    RemoveMoves(s, O_FISH);
    var t := ToInventory(Remove(s, O_FISH), O_TUX, rnd);
    ToInventoryMoves(Remove(s, O_FISH), O_TUX, rnd);
    SameLists(t, t.(flags := s.flags + {LuredTux}));
  }

  /** The car's photo and the spare one change places, and nothing else but flags and objects does. */
  ghost predicate HoodMoved(s: State, t: State)
    requires s.Shaped()
  {
    && t.media == s.media && t.enter == s.enter && |t.view| == N_ROOMS && |t.swap| == N_SWAPS
    && t.view[R_CAR_SITE] == s.swap[1] && t.swap[1] == s.view[R_CAR_SITE] && t.swap[0] == s.swap[0]
    && forall v: RoomId | v != R_CAR_SITE :: t.view[v] == s.view[v]
  }

  /** The key opens the hood, under which is the battery. */
  lemma OpenCarDoes(s: State, where: RoomId, arg: string, rnd: Rand)
    requires s.WellFormed() && PlayerPlaced(s, where) && Same("car", arg)
    ensures var t := Perform(s, where, Typed(VUse, arg), rnd);
            && t.where == where
            && if && where == R_CAR_SITE && CarOpen !in s.flags && CarFixed !in s.flags
                  && s.obj[O_CAR_KEY].loc == R_INVENTORY then
                 && t.action == ChangeRoom && t.s.WellFormed() && HoodMoved(s, t.s) && t.s.flags == s.flags + {CarOpen}
                 && t.s.obj[O_CAR_KEY].loc == NONE && t.s.obj[O_BATT_CAR] == ObjInfo(R_CAR_SITE, 265, 122)
                 && forall o: ObjId | o != O_CAR_KEY && o != O_BATT_CAR :: t.s.obj[o] == s.obj[o]
               else Refused(s, t, true)
  {
    hide Remove, InsertAt;
    if where == R_CAR_SITE {
      var t := SwapPhoto(s, where, SWAP_CAR);
      SameLists(s, t);
      RemoveMoves(t, O_CAR_KEY);
      var u := InsertAt(Remove(t, O_CAR_KEY), O_BATT_CAR, where, 265, 122);
      InsertKeepsLists(Remove(t, O_CAR_KEY), O_BATT_CAR, where, 265, 122);
      InsertMoves(Remove(t, O_CAR_KEY), O_BATT_CAR, where, 265, 122);
      SameLists(u, u.(flags := u.flags + {CarOpen}));
    }
  }

  /** The charged battery makes the car run and closes the hood. */
  lemma InstallBatteryDoes(s: State, where: RoomId, arg: string, rnd: Rand)
    requires s.WellFormed() && PlayerPlaced(s, where) && Same("battery", arg)
    ensures var t := Perform(s, where, Typed(VInstall, arg), rnd);
            && t.where == where
            && if where == R_CAR_SITE && AtHand(s, O_BATT_FULL, where) && !AtHand(s, O_BATT_EMPTY, where) then
                 && t.action == ChangeRoom && t.s.WellFormed() && HoodMoved(s, t.s) && t.s.flags == s.flags + {CarFixed}
                 && t.s.obj[O_BATT_FULL].loc == NONE
                 && forall o: ObjId | o != O_BATT_FULL :: t.s.obj[o] == s.obj[o]
               else Refused(s, t, true)
  {
    hide Remove;
    RemoveMoves(s, O_BATT_FULL);
    if where == R_CAR_SITE {
      SameLists(Remove(s, O_BATT_FULL), SwapPhoto(Remove(s, O_BATT_FULL).(flags := s.flags + {CarFixed}), where, SWAP_CAR));
    }
  }

  /** The transmitter card lets the plane take off. */
  lemma InstallCardDoes(s: State, where: RoomId, arg: string, rnd: Rand)
    requires s.WellFormed() && PlayerPlaced(s, where) && !Same("battery", arg)
    ensures var t := Perform(s, where, Typed(VInstall, arg), rnd);
            && t.where == where
            && if && (Same("mimo", arg) || Same("card", arg) || Same("transmitter", arg))
                  && where == R_COCKPIT && AtHand(s, O_MIMO_CARD, where) then
                 && t.action == RedrawRoom && t.s.WellFormed()
                 && t.s == s.(obj := t.s.obj, contents := t.s.contents, enter := t.s.enter)
                 && t.s.obj[O_MIMO_CARD].loc == NONE
                 && (forall o: ObjId | o != O_MIMO_CARD :: t.s.obj[o] == s.obj[o])
                 && t.s.enter[R_COCKPIT] == R_OVER_WILL
                 && forall r: RoomId | r != R_COCKPIT :: t.s.enter[r] == s.enter[r]
               else Refused(s, t, Same("mimo", arg) || Same("card", arg) || Same("transmitter", arg))
  {
    hide Remove;
    RemoveMoves(s, O_MIMO_CARD);
    var t := Remove(s, O_MIMO_CARD);
    SameLists(t, t.(enter := t.enter[R_COCKPIT := R_OVER_WILL]));
  }

  // ----- names and places -----

  /** The same letter, in whatever case. */
  predicate SameLetter(c: char, d: char) {
    || c == d
    || ('A' <= c <= 'Z' && d as int == c as int + 32)
    || ('A' <= d <= 'Z' && c as int == d as int + 32)
  }

  /** Names are compared letter by letter, in whatever case ... */
  lemma CaseDoesNotMatter(a: string, b: string)
    ensures Same(a, b) <==> |a| == |b| && forall i | 0 <= i < |a| :: SameLetter(a[i], b[i])
  {
    forall c: char, d: char
      ensures Lower(c) == Lower(d) <==> SameLetter(c, d)
    {
    }
  }

  /** ... and each word stands for one thing, or for the things that turn into one another. */
  lemma WordsMean(o: ObjId)
    ensures Same("board", Name(o)) <==> o == O_BOARD
    ensures Same("jetpack", Name(o)) <==> o == O_JETPACK
    ensures Same("tux", Name(o)) <==> o == O_TUX
    ensures Same("mp2", Name(o)) <==> o == O_MP2
    ensures Same("book", Name(o)) <==> o == O_BOOK_C || o == O_BOOK_WODE
    ensures Same("gps", Name(o)) <==> o == O_GPS_BAD || o == O_GPS_GOOD
    ensures Same("spec", Name(o)) <==> o == O_GPS_SPEC
    ensures Same("bunnysuit", Name(o)) <==> o == O_BUNNYSUIT
    ensures Same("battery", Name(o)) <==> o == O_BATT_EMPTY || o == O_BATT_FULL || o == O_BATT_CAR
    ensures Same("dew", Name(o)) <==> o == O_MTN_DEW
    ensures Same("fish", Name(o)) <==> o == O_FISH
    ensures Same("icard", Name(o)) <==> o == O_ICARD
    ensures Same("key", Name(o)) <==> o == O_CAR_KEY
    ensures Same("robot", Name(o)) <==> o == O_ROBOT_DEAD || o == O_ROBOT_LIVE
    ensures Same("mimo", Name(o)) <==> o == O_MIMO_CARD
  {
    hide Same;
    KnownBy();
    SameStart("board", o);
    SameStart("jetpack", o);
    SameStart("tux", o);
    SameStart("mp2", o);
    SameStart("book", o);
    SameStart("gps", o);
    SameStart("spec", o);
    SameStart("bunnysuit", o);
    SameStart("battery", o);
    SameStart("dew", o);
    SameStart("fish", o);
    SameStart("icard", o);
    SameStart("key", o);
    SameStart("robot", o);
    SameStart("mimo", o);
  }

  lemma KnownBy()
    ensures Same("board", Name(O_BOARD)) && Same("jetpack", Name(O_JETPACK)) && Same("tux", Name(O_TUX))
    ensures Same("mp2", Name(O_MP2)) && Same("book", Name(O_BOOK_C)) && Same("book", Name(O_BOOK_WODE))
    ensures Same("gps", Name(O_GPS_BAD)) && Same("gps", Name(O_GPS_GOOD)) && Same("spec", Name(O_GPS_SPEC))
    ensures Same("bunnysuit", Name(O_BUNNYSUIT)) && Same("battery", Name(O_BATT_EMPTY)) && Same("battery", Name(O_BATT_FULL))
    ensures Same("battery", Name(O_BATT_CAR)) && Same("dew", Name(O_MTN_DEW)) && Same("fish", Name(O_FISH))
    ensures Same("icard", Name(O_ICARD)) && Same("key", Name(O_CAR_KEY)) && Same("robot", Name(O_ROBOT_DEAD))
    ensures Same("robot", Name(O_ROBOT_LIVE)) && Same("mimo", Name(O_MIMO_CARD))
  {
  }

  lemma SameStart(word: string, o: ObjId)
    requires word != ""
    ensures Same(word, Name(o)) ==> |word| == |Name(o)| && Lower(word[0]) == Lower(Name(o)[0])
  {
  }

  /** No carried object is at this place of the inventory's picture. */
  ghost predicate NothingAt(s: State, x: int, y: int)
    requires s.Shaped()
  {
    forall p: ObjId | s.obj[p].loc == R_INVENTORY :: !(s.obj[p].x == x && s.obj[p].y == y)
  }

  lemma TakenBySomething(s: State, x: nat, y: nat)
    requires s.WellFormed()
    ensures Taken(s, x, y) <==> !NothingAt(s, x, y)
  {
    var inv: RoomId := R_INVENTORY;
    assert s.ListAgrees(inv);
    var q := s.contents[inv];
    if p: ObjId :| s.obj[p].loc == R_INVENTORY && s.obj[p].x == x && s.obj[p].y == y {
      assert p in q;
      var i :| 0 <= i < |q| && q[i] == p;
    }
    if Taken(s, x, y) {
      var i :| 0 <= i < |q| && s.obj[q[i]].x == x && s.obj[q[i]].y == y;
      assert q[i] in q;
    }
  }

  lemma SlotsAreAGrid(k: nat)
    requires k < 12
    ensures SlotX(k) == 10 + 100 * (k % 3) && SlotY(k) == 10 + 50 * (k / 3)
  {
  }

  /** What is picked up gets the first of the twelve grid places, row by row, where nothing is. */
  lemma PlacedInGrid(s: State, o: ObjId, rnd: Rand, k: nat)
    requires s.WellFormed() && k < 12 && NothingAt(s, 10 + 100 * (k % 3), 10 + 50 * (k / 3))
    requires forall j | 0 <= j < k :: !NothingAt(s, 10 + 100 * (j % 3), 10 + 50 * (j / 3))
    ensures ToInventory(s, o, rnd).obj[o] == ObjInfo(R_INVENTORY, 10 + 100 * (k % 3), 10 + 50 * (k / 3))
  {
    hide SlotX, SlotY, Taken, NothingAt;
    forall j | 0 <= j <= k
      ensures SlotTaken(s, j) <==> j < k
    {
      SlotsAreAGrid(j);
      TakenBySomething(s, SlotX(j), SlotY(j));
    }
    SlotsAreAGrid(k);
    FirstFreeSlotIsChosen(s, 0, k);
    InsertKeepsLists(s, o, R_INVENTORY, SlotX(k), SlotY(k));
  }

  /** Where chance may put an object in a room: in the bottom quarter of the photo if it is low enough,
      anywhere in the photo otherwise, and at its edge if it does not fit. */
  predicate MayLieAcross(width: nat, imageWidth: nat, x: int) {
    if width > imageWidth then 0 <= x < width - imageWidth else x == 0
  }

  predicate MayLieDown(height: nat, imageHeight: nat, y: int) {
    if height / 4 > imageHeight then 3 * height / 4 <= y < 3 * height / 4 + height / 4 - imageHeight
    else if height > imageHeight then 0 <= y < height - imageHeight
    else y == 0
  }

  /** An object put somewhere by chance lies there, and may lie everywhere there. */
  lemma ChancePlaces(s: State, o: ObjId, r: RoomId, x: int, y: int)
    requires s.Shaped()
    ensures var (photo, image) := (s.media.photos[s.view[r]], s.media.images[o]);
            MayLieAcross(photo.width, image.width, x) && MayLieDown(photo.height, image.height, y)
            <==> exists rnd :: RandomX(s, o, r, rnd) == x && RandomY(s, o, r, rnd) == y
  {
    hide MayLieAcross, MayLieDown, RandomX, RandomY;
    var photo, image := s.media.photos[s.view[r]], s.media.images[o];
    forall rnd
      ensures MayLieAcross(photo.width, image.width, RandomX(s, o, r, rnd))
      ensures MayLieDown(photo.height, image.height, RandomY(s, o, r, rnd))
    {
      AcrossDrawn(s, o, r, rnd);
      DownDrawn(s, o, r, rnd);
    }
    if MayLieAcross(photo.width, image.width, x) && MayLieDown(photo.height, image.height, y) {
      var rnd := DrawsFor(s, o, r, x, y);
    }
  }

  lemma AcrossDrawn(s: State, o: ObjId, r: RoomId, rnd: Rand)
    requires s.Shaped()
    ensures MayLieAcross(s.media.photos[s.view[r]].width, s.media.images[o].width, RandomX(s, o, r, rnd))
  {
  }

  lemma DownDrawn(s: State, o: ObjId, r: RoomId, rnd: Rand)
    requires s.Shaped()
    ensures MayLieDown(s.media.photos[s.view[r]].height, s.media.images[o].height, RandomY(s, o, r, rnd))
  {
  }

  lemma DrawsFor(s: State, o: ObjId, r: RoomId, x: int, y: int) returns (rnd: Rand)
    requires s.Shaped()
    requires MayLieAcross(s.media.photos[s.view[r]].width, s.media.images[o].width, x)
    requires MayLieDown(s.media.photos[s.view[r]].height, s.media.images[o].height, y)
    ensures RandomX(s, o, r, rnd) == x && RandomY(s, o, r, rnd) == y
  {
    var photo, image := s.media.photos[s.view[r]], s.media.images[o];
    var draw := if photo.height / 4 > image.height then y - 3 * photo.height / 4 else y;
    rnd := if photo.width > image.width then Rand(x, draw) else Rand(draw, 0);
    Remainder(x, photo.width - image.width);
    Remainder(draw, photo.height / 4 - image.height);
    Remainder(draw, photo.height - image.height);
  }

  lemma Remainder(draw: int, range: int)
    ensures 0 <= draw < range ==> draw % range == draw
  {
  }

  // ----- where things are at first -----

  /** The object is in its place, or in limbo if it has none. */
  ghost predicate PlacedWell(s: State, o: ObjId)
    requires s.Shaped()
  {
    var info := s.obj[o];
    if o == O_TUX then info == ObjInfo(R_REM_LAB, 250, 100)
    else if o == O_BUNNYSUIT then info == ObjInfo(R_ALMAMATER, 230, 250)
    else if o == O_FISH then info == ObjInfo(R_EAST_BONE, 80, 260)
    else if o == O_BOARD then LiesIn(s, o, R_IN_IEEE)
    else if o == O_JETPACK || o == O_GPS_BAD then LiesIn(s, o, R_TALBOT)
    else if o == O_MP2 then LiesIn(s, o, R_CSLLOUNGE)
    else if o == O_GPS_SPEC then LiesIn(s, o, R_CSL_UPPER)
    else if o == O_ICARD then LiesIn(s, o, R_BARDEEN)
    else if o == O_CAR_KEY then LiesIn(s, o, R_CARIBOU)
    else if o == O_ROBOT_DEAD then LiesIn(s, o, R_MNTL_LAB3)
    else if o == O_MIMO_CARD then LiesIn(s, o, R_STATUE)
    else info.loc == NONE
  }

  /** Somewhere in the room where chance may put it. */
  ghost predicate LiesIn(s: State, o: ObjId, r: RoomId)
    requires s.Shaped()
  {
    && s.obj[o].loc == r
    && MayLieAcross(s.media.photos[s.view[r]].width, s.media.images[o].width, s.obj[o].x)
    && MayLieDown(s.media.photos[s.view[r]].height, s.media.images[o].height, s.obj[o].y)
  }

  lemma OnePlaced(s: State, o: ObjId, rnd: Rand)
    requires s.WellFormed() && s.obj[o].loc == NONE
    ensures var t := Placed(s, o, rnd);
            && t.WellFormed() && PlacedWell(t, o) && t == s.(obj := t.obj, contents := t.contents)
            && forall p: ObjId | p != o :: t.obj[p] == s.obj[p]
  {
    hide MayLieAcross, MayLieDown, RandomX, RandomY, InsertAt;
    var r := StartRoom(o);
    if r != NONE {
      AcrossDrawn(s, o, r, rnd);
      DownDrawn(s, o, r, rnd);
      InsertKeepsLists(s, o, r, StartX(o), StartY(o));
      InsertKeepsLists(s, o, r, RandomX(s, o, r, rnd), RandomY(s, o, r, rnd));
      InsertMoves(s, o, r, StartX(o), StartY(o));
      InsertMoves(s, o, r, RandomX(s, o, r, rnd), RandomY(s, o, r, rnd));
    }
  }

  /** In a new world every object is in its place. */
  lemma {:induction false} ThingsStart(media: Media, rnds: seq<Rand>, k: nat)
    requires media.Valid() && |rnds| == N_OBJECTS && k <= N_OBJECTS
    ensures var s := Built(media, rnds, k);
            && s.WellFormed() && s.media == media && s.view == Blank(media).view
            && (forall o: ObjId | o < k :: PlacedWell(s, o))
            && (forall o: ObjId | o >= k :: s.obj[o].loc == NONE)
  {
    hide PlacedWell, Placed, Blank;
    if k == 0 {
      BlankPlaces(media);
    } else {
      ThingsStart(media, rnds, k - 1);
      var s := Built(media, rnds, k - 1);
      OnePlaced(s, k - 1, rnds[k - 1]);
      var t := Placed(s, k - 1, rnds[k - 1]);
      forall o: ObjId | o < k
        ensures PlacedWell(t, o)
      {
        if o < k - 1 {
          SamePlace(s, t, o);
        }
      }
    }
  }

  lemma BlankPlaces(media: Media)
    requires media.Valid()
    ensures Blank(media).WellFormed() && Blank(media).media == media
    ensures forall o: ObjId :: Blank(media).obj[o].loc == NONE
  {
    BlankWellFormed(media);
  }

  lemma SamePlace(s: State, t: State, o: ObjId)
    requires s.Shaped() && t.Shaped() && t.media == s.media && t.view == s.view && t.obj[o] == s.obj[o]
    ensures PlacedWell(s, o) ==> PlacedWell(t, o)
  {
  }
}
