/** The adventure world as mp2/world.c keeps it: arrays of room and object
    records threaded by intrusive lists, updated in place.  Every operation is
    proved to do to the abstract world exactly what WorldSpec says. */
module World {
  import opened WorldTables
  import opened WorldSpec

  datatype Room = Room(view: nat, contents: ObjRef, left: RoomRef, enter: RoomRef, right: RoomRef)

  datatype Object = Object(next: ObjRef, loc: RoomRef, x: nat, y: nat)

  /** The list pointer that follows position i - 1: the element at i, or null at the end. */
  function Link(q: seq<ObjId>, i: nat): ObjRef {
    if i < |q| then q[i] else NONE
  }

  function FlagBit(f: Flag): bv32 {
    match f
    case HasEaten => 1
    case WearingSuit => 2
    case CarOpen => 4
    case CarFixed => 8
    case LuredTux => 16
  }

  function WithFlag(word: bv32, f: Flag): bv32 {
    word | FlagBit(f)
  }

  ghost predicate FlagsMirrored(flags: set<Flag>, word: bv32) {
    && (HasEaten in flags <==> word & 1 != 0)
    && (WearingSuit in flags <==> word & 2 != 0)
    && (CarOpen in flags <==> word & 4 != 0)
    && (CarFixed in flags <==> word & 8 != 0)
    && (LuredTux in flags <==> word & 16 != 0)
  }

  lemma OneFlagSet(flags: set<Flag>, word: bv32, f: Flag)
    requires FlagsMirrored(flags, word)
    ensures FlagsMirrored(flags + {f}, WithFlag(word, f))
  {
    match f { case HasEaten => case WearingSuit => case CarOpen => case CarFixed => case LuredTux => }
  }

  // ----- the records as values, and the abstract world they stand for -----

  /** Following next pointers from head spells out q. */
  ghost predicate Chain(q: seq<ObjId>, head: ObjRef, os: seq<Object>)
    requires |os| == N_OBJECTS
  {
    head == Link(q, 0) && forall i | 0 <= i < |q| :: os[q[i]].next == Link(q, i + 1)
  }

  /** The fields other than the list pointers. */
  ghost predicate RecordsMatch(s: State, rs: seq<Room>, os: seq<Object>)
    requires s.Shaped()
  {
    && |rs| == N_ROOMS && |os| == N_OBJECTS
    && (forall o | 0 <= o < N_OBJECTS :: s.obj[o] == ObjInfo(os[o].loc, os[o].x, os[o].y))
    && (forall r | 0 <= r < N_ROOMS ::
          && rs[r].left == LeftOf(r) && rs[r].right == RightOf(r)
          && s.enter[r] == rs[r].enter && s.view[r] == rs[r].view)
  }

  ghost predicate Mirrors(s: State, rs: seq<Room>, os: seq<Object>) {
    && s.WellFormed() && RecordsMatch(s, rs, os)
    && (forall r: RoomId :: Chain(s.contents[r], rs[r].contents, os))
  }

  lemma BlankMirrored(m: Media, rs: seq<Room>, os: seq<Object>, swap: seq<nat>)
    requires m.Valid() && |rs| == N_ROOMS && |os| == N_OBJECTS && |swap| == N_SWAPS
    requires forall r: RoomId :: rs[r] == Room(r, NONE, LeftOf(r), InitialEnter(r), RightOf(r))
    requires forall o: ObjId :: os[o] == Object(NONE, NONE, 0, 0)
    requires forall w | 0 <= w < N_SWAPS :: swap[w] == N_ROOMS + w
    ensures Mirrors(Blank(m), rs, os) && Blank(m).swap == swap && Blank(m).media == m
    ensures FlagsMirrored(Blank(m).flags, 0)
  {
    BlankWellFormed(m);
  }

  /** Unlinking the first element: the room now points to the second. */
  lemma UnlinkFirst(q: seq<ObjId>, head: ObjRef, os: seq<Object>)
    requires |os| == N_OBJECTS && Chain(q, head, os) && q != []
    ensures Chain(q[1..], os[q[0]].next, os)
  {
    assert forall i | 0 <= i < |q[1..]| :: q[1..][i] == q[i + 1];
  }

  /** Unlinking a later element: its predecessor now points to its successor. */
  lemma UnlinkLater(q: seq<ObjId>, head: ObjRef, os: seq<Object>, k: nat)
    requires |os| == N_OBJECTS && Chain(q, head, os) && NoDuplicates(q) && 0 < k < |q|
    ensures Chain(q[..k] + q[k + 1..], head, os[q[k - 1] := os[q[k - 1]].(next := os[q[k]].next)])
  {
    var q' := q[..k] + q[k + 1..];
    var pred := q[k - 1];
    var os' := os[pred := os[pred].(next := os[q[k]].next)];
    assert os'[pred].next == Link(q, k + 1) && forall o: ObjId | o != pred :: os'[o] == os[o];
    forall i | 0 <= i < |q'|
      ensures os'[q'[i]].next == Link(q', i + 1)
    {
      if i < k - 1 {
        assert q'[i] == q[i] && q'[i + 1] == q[i + 1] && q[i] != pred;
      } else if i == k - 1 {
        assert q'[i] == pred && Link(q', k) == Link(q, k + 1);
      } else {
        assert q'[i] == q[i + 1] && Link(q', i + 1) == Link(q, i + 2) && q[i + 1] != pred;
      }
    }
  }

  /** A list does not notice changes to objects that are not on it. */
  lemma ChainFrame(q: seq<ObjId>, head: ObjRef, os: seq<Object>, o: ObjId, w: Object)
    requires |os| == N_OBJECTS && Chain(q, head, os)
    requires o !in q || w.next == os[o].next
    ensures Chain(q, head, os[o := w])
  {
  }

  class GameWorld {
    const rooms: array<Room>
    const objects: array<Object>
    const swapPhoto: array<nat>
    var playerFlags: bv32
    const media: Media

    /** The abstract world that the records represent. */
    ghost var state: State
    ghost const Repr: set<object>

    ghost predicate Valid()
      reads this, rooms, objects, swapPhoto
    {
      && Repr == {this, rooms, objects, swapPhoto}
      && rooms.Length == N_ROOMS && objects.Length == N_OBJECTS && swapPhoto.Length == N_SWAPS
      && state.media == media
      && Mirrors(state, rooms[..], objects[..])
      && state.swap == swapPhoto[..]
      && FlagsMirrored(state.flags, playerFlags)
    }

    /** build_world, once all images have been read. */
    constructor BuildWorld(m: Media, rnds: seq<Rand>)
      requires m.Valid() && |rnds| == N_OBJECTS
      ensures Valid() && fresh(Repr) && state == Built(m, rnds, N_OBJECTS)
    {
      hide Blank, Mirrors, FlagsMirrored, Built, LeftOf, RightOf, InitialEnter;
      media := m;
      playerFlags := 0;
      rooms := new Room[N_ROOMS](r requires 0 <= r < N_ROOMS => Room(r, NONE, LeftOf(r), InitialEnter(r), RightOf(r)));
      objects := new Object[N_OBJECTS](_ => Object(NONE, NONE, 0, 0));
      swapPhoto := new nat[N_SWAPS](w requires 0 <= w < N_SWAPS => N_ROOMS + w);
      state := Blank(m);
      Repr := {this, rooms, objects, swapPhoto};
      new;
      BlankMirrored(m, rooms[..], objects[..], swapPhoto[..]);
      PlaceObjects(rnds);
    }

    /** The loop of build_world over the object table. */
    method PlaceObjects(rnds: seq<Rand>)
      requires Valid() && |rnds| == N_OBJECTS && state == Blank(media)
      modifies this`state, rooms, objects
      ensures Valid() && state == Built(media, rnds, N_OBJECTS)
    {
      hide Mirrors, FlagsMirrored, Placed, Blank;
      RoomMirrored(START_ROOM);
      var which := 0;
      while which < N_OBJECTS
        invariant 0 <= which <= N_OBJECTS
        invariant Valid() && state == Built(media, rnds, which)
      {
        PlaceObject(which, rnds[which]);
        which := which + 1;
      }
    }

    method PlaceObject(o: ObjId, rnd: Rand)
      requires Valid()
      modifies this`state, rooms, objects
      ensures Valid() && state == Placed(old(state), o, rnd)
    {
      hide Mirrors, FlagsMirrored, Insert, InsertAt;
      if NONE != StartRoom(o) {
        if HasStartPosition(o) {
          InsertObjectAt(o, StartRoom(o), StartX(o), StartY(o));
        } else {
          InsertObject(o, StartRoom(o), rnd);
        }
      }
    }

    // ----- moving objects -----

    /** The search of remove_object for the link that leads to o: the contents field
        of o's room (pred == NONE) or the next field of the object before it. */
    method FindLinkTo(o: ObjId) returns (pred: ObjRef, ghost k: nat)
      requires Valid() && objects[o].loc != NONE
      ensures var q := state.contents[objects[o].loc];
              && k < |q| && q[k] == o && pred == if k == 0 then NONE else q[k - 1]
    {
      var loc := objects[o].loc;
      ghost var q := state.contents[loc];
      assert state.ListAgrees(loc) && Chain(q, rooms[loc].contents, objects[..]);
      var cur := rooms[loc].contents;
      pred, k := NONE, 0;
      while cur != NONE && o != cur
        invariant k <= |q| && cur == Link(q, k)
        invariant pred == if k == 0 then NONE else q[k - 1]
        invariant forall j | 0 <= j < k :: q[j] != o
        decreases |q| - k
      {
        assert objects[..][q[k]].next == Link(q, k + 1);
        pred, cur := cur, objects[cur].next;
        k := k + 1;
      }
      assert o in q;
    }

    method RemoveObject(o: ObjId)
      requires Valid()
      modifies this`state, rooms, objects
      ensures Valid() && state == Remove(old(state), o)
    {
      var loc := objects[o].loc;
      if loc != NONE {
        var pred, k := FindLinkTo(o);
        if pred == NONE {
          rooms[loc] := rooms[loc].(contents := objects[o].next);
        } else {
          objects[pred] := objects[pred].(next := objects[o].next);
        }
        objects[o] := objects[o].(loc := NONE);
        RemoveMirrored(state, old(rooms[..]), old(objects[..]), loc, k, rooms[..], objects[..]);
        state := Remove(state, o);
      }
    }

    method InsertObjectAt(o: ObjId, r: RoomId, x: nat, y: nat)
      requires Valid()
      modifies this`state, rooms, objects
      ensures Valid() && state == InsertAt(old(state), o, r, x, y)
    {
      RemoveKeepsLists(state, o);
      RemoveObject(o);
      InsertMirrored(state, rooms[..], objects[..], o, r, x, y);
      assert InsertAt(state, o, r, x, y) == InsertAt(old(state), o, r, x, y);
      objects[o] := Object(rooms[r].contents, r, x, y);
      rooms[r] := rooms[r].(contents := o);
      state := InsertAt(state, o, r, x, y);
    }

    /** The random placement of insert_object. */
    method RandomPosition(o: ObjId, r: RoomId, rnd: Rand) returns (xpos: nat, ypos: nat)
      requires Valid()
      ensures xpos == RandomX(state, o, r, rnd) && ypos == RandomY(state, o, r, rnd)
    {
      var draw := rnd.first;
      var photo, img := media.photos[rooms[r].view], media.images[o];
      assert photo == state.media.photos[state.view[r]];
      var range: int := photo.width - img.width;
      xpos, ypos := 0, 0;
      if 0 < range {
        xpos, draw := draw % range, rnd.second;
      }
      var space: int, imgHt: int := photo.height, img.height;
      range := space / 4 - imgHt;
      if 0 >= range {
        range := space - imgHt;
        ypos := if 0 >= range then 0 else draw % range;
      } else {
        ypos := draw % range + 3 * space / 4;
      }
    }

    method InsertObject(o: ObjId, r: RoomId, rnd: Rand)
      requires Valid()
      modifies this`state, rooms, objects
      ensures Valid() && state == Insert(old(state), o, r, rnd)
    {
      var xpos, ypos := RandomPosition(o, r, rnd);
      InsertObjectAt(o, r, xpos, ypos);
    }

    /** The conflict search of move_object_to_inventory for one grid position. */
    method Occupied(x: nat, y: nat) returns (taken: bool)
      requires Valid()
      ensures taken == Taken(state, x, y)
    {
      hide Mirrors, FlagsMirrored;
      RoomMirrored(R_INVENTORY);
      ghost var q, k := state.contents[R_INVENTORY], 0;
      var conf := rooms[R_INVENTORY].contents;
      while conf != NONE
        invariant 0 <= k <= |q| && conf == Link(q, k)
        invariant forall i | 0 <= i < k :: !(state.obj[q[i]].x == x && state.obj[q[i]].y == y)
        decreases |q| - k
      {
        ObjectMirrored(R_INVENTORY, k);
        if x == objects[conf].x && y == objects[conf].y {
          return true;
        }
        conf := objects[conf].next;
        k := k + 1;
      }
      return false;
    }

    /** The search over grid positions; found is false if all are taken. */
    method FindGridPosition() returns (found: bool, x: nat, y: nat)
      requires Valid()
      ensures var k := FreeSlot(state, 0);
              if k < SLOTS then found && x == SlotX(k) && y == SlotY(k) else !found
    {
      ghost var row: nat := 0;
      y, x := 10, 10;
      while 160 >= y
        invariant row <= 4 && y == 10 + 50 * row
        invariant forall j | 0 <= j < 3 * row :: SlotTaken(state, j)
        decreases 160 - y
      {
        ghost var k;
        found, x, k := FindInRow(y, row);
        if found {
          FirstFreeSlotIsChosen(state, 0, k);
          return;
        }
        y, row := y + 50, row + 1;
      }
      FirstFreeSlotIsChosen(state, 0, SLOTS);
      found := false;
    }

    method FindInRow(y: nat, ghost row: nat) returns (found: bool, x: nat, ghost k: nat)
      requires Valid() && row < 4 && y == 10 + 50 * row
      ensures 3 * row <= k <= 3 * row + 3 && (found <==> k < 3 * row + 3)
      ensures found ==> x == SlotX(k) && y == SlotY(k) && !SlotTaken(state, k)
      ensures forall j | 3 * row <= j < k :: SlotTaken(state, j)
    {
      k := 3 * row;
      x := 10;
      while 210 >= x
        invariant 3 * row <= k <= 3 * row + 3 && x == 10 + 100 * (k - 3 * row)
        invariant forall j | 3 * row <= j < k :: SlotTaken(state, j)
        decreases 210 - x
      {
        assert x == SlotX(k) && y == SlotY(k);
        var taken := Occupied(x, y);
        if !taken {
          return true, x, k;
        }
        x, k := x + 100, k + 1;
      }
      found := false;
    }

    method MoveObjectToInventory(o: ObjId, rnd: Rand)
      requires Valid()
      modifies this`state, rooms, objects
      ensures Valid() && state == ToInventory(old(state), o, rnd)
    {
      var found, x, y := FindGridPosition();
      if found {
        InsertObjectAt(o, R_INVENTORY, x, y);
      } else {
        InsertObject(o, R_INVENTORY, rnd);
      }
    }

    method DoPhotoSwap(r: RoomId, which: nat)
      requires Valid() && which < N_SWAPS
      modifies this`state, rooms, swapPhoto
      ensures Valid() && state == SwapPhoto(old(state), r, which)
    {
      var tmp := rooms[r].view;
      rooms[r] := rooms[r].(view := swapPhoto[which]);
      swapPhoto[which] := tmp;
      state := SwapPhoto(state, r, which);
      SwapMirrored(old(state), old(rooms[..]), objects[..], r, which);
    }

    method FindInRoom(r: RoomId, arg: string) returns (o: ObjRef)
      requires Valid()
      ensures o == Find(state, r, arg)
    {
      hide Mirrors, FlagsMirrored, Same;
      RoomMirrored(r);
      ghost var q, k := state.contents[r], 0;
      o := rooms[r].contents;
      while o != NONE
        invariant 0 <= k <= |q| && o == Link(q, k)
        invariant FindByName(q, arg) == FindByName(q[k..], arg)
        decreases |q| - k
      {
        if Same(arg, Name(o)) {
          return;
        }
        ObjectMirrored(r, k);
        assert q[k..][1..] == q[k + 1..];
        o := objects[o].next;
        k := k + 1;
      }
    }

    method PlayerFlagIsSet(f: Flag) returns (b: bool)
      requires Valid()
      ensures b <==> f in state.flags
    {
      b := playerFlags & FlagBit(f) != 0;
    }

    method PlayerSetFlag(f: Flag)
      requires Valid()
      modifies this`state, this`playerFlags
      ensures Valid() && state == old(state).(flags := old(state).flags + {f})
    {
      OneFlagSet(state.flags, playerFlags, f);
      playerFlags := WithFlag(playerFlags, f);
      state := state.(flags := state.flags + {f});
      SameLists(old(state), state);
    }

    // ----- motion -----

    /** The player's arrival in a room by way of an edge. */
    method Arriving(r: RoomId, rnd: Rand) returns (w: RoomRef, a: Action)
      requires Valid()
      modifies Repr
      ensures Valid() && Outcome(state, w, a) == Arrive(old(state), r, rnd)
    {
      if r == R_CIRCLE_N && rnd.first % 2 == 0 {
        DoPhotoSwap(r, SWAP_CIRCLE);
      }
      return r, ChangeRoom;
    }

    method TryToMoveLeft(where: RoomId, rnd: Rand) returns (w: RoomRef, a: Action)
      requires Valid()
      modifies Repr
      ensures Valid() && Outcome(state, w, a) == MoveLeft(old(state), where, rnd)
    {
      if rooms[where].left != NONE {
        w, a := Arriving(rooms[where].left, rnd);
        return;
      }
      return where, AllowEdit;
    }

    method TryToMoveRight(where: RoomId, rnd: Rand) returns (w: RoomRef, a: Action)
      requires Valid()
      modifies Repr
      ensures Valid() && Outcome(state, w, a) == MoveRight(old(state), where, rnd)
    {
      if rooms[where].right != NONE {
        w, a := Arriving(rooms[where].right, rnd);
        return;
      }
      return where, AllowEdit;
    }

    method TryToEnter(where: RoomId, rnd: Rand) returns (w: RoomRef, a: Action)
      requires Valid()
      modifies Repr
      ensures Valid() && Outcome(state, w, a) == Enter(old(state), where, rnd)
    {
      if rooms[where].enter != NONE {
        w, a := Arriving(rooms[where].enter, rnd);
        return;
      }
      if where == R_BY_CLEANR {
        var suited := PlayerFlagIsSet(WearingSuit);
        if suited {
          return R_IN_CLEANR, ChangeRoom;
        }
        return where, AllowEdit;
      }
      if where == R_BY_395LAB {
        if objects[O_ICARD].loc == R_INVENTORY {
          return R_IN_395LAB, ChangeRoom;
        }
        return where, AllowEdit;
      }
      if where == R_CSL_DOOR {
        if objects[O_ICARD].loc == R_INVENTORY {
          return R_CSL_LOBBY, ChangeRoom;
        }
        return where, AllowEdit;
      }
      if where == R_BECK_DOOR {
        if objects[O_ROBOT_LIVE].loc == R_INVENTORY {
          return R_BECKLOBBY, ChangeRoom;
        }
        return where, AllowEdit;
      }
      return where, AllowEdit;
    }

    // ----- typed commands -----

    method TypedCmdBuy(where: RoomId, arg: string, rnd: Rand) returns (w: RoomRef, a: Action)
      requires Valid()
      modifies Repr
      ensures Valid() && Outcome(state, w, a) == Buy(old(state), where, arg, rnd)
    {
      hide Same, ToInventory;
      if Same("dew", arg) {
        if R_EVRT_VEND != where {
          return where, DiscardText;
        }
        if objects[O_MTN_DEW].loc == R_INVENTORY || objects[O_MTN_DEW].loc == where {
          return where, DiscardText;
        }
        MoveObjectToInventory(O_MTN_DEW, rnd);
        return where, RedrawRoom;
      }
      if Same("yogurt", arg) {
        if R_IN_COCOMR == where {
          var eaten := PlayerFlagIsSet(HasEaten);
          if !eaten {
            PlayerSetFlag(HasEaten);
          } else {
            assert state.flags == state.flags + {HasEaten};
          }
        }
        return where, DiscardText;
      }
      return where, AllowEdit;
    }

    method TypedCmdCharge(where: RoomId, arg: string, rnd: Rand) returns (w: RoomRef, a: Action)
      requires Valid()
      modifies Repr
      ensures Valid() && Outcome(state, w, a) == Charge(old(state), where, arg, rnd)
    {
      hide Remove, ToInventory;
      if !Same("battery", arg) {
        return where, AllowEdit;
      }
      if objects[O_BATT_EMPTY].loc != R_INVENTORY && objects[O_BATT_EMPTY].loc != where &&
         objects[O_BATT_FULL].loc != R_INVENTORY && objects[O_BATT_FULL].loc != where {
        return where, DiscardText;
      }
      if R_BECK_MRI != where {
        return where, DiscardText;
      }
      if objects[O_BATT_FULL].loc == R_INVENTORY || objects[O_BATT_FULL].loc == where {
        return where, DiscardText;
      }
      RemoveObject(O_BATT_EMPTY);
      MoveObjectToInventory(O_BATT_FULL, rnd);
      return where, RedrawRoom;
    }

    method TypedCmdDo(where: RoomId, arg: string) returns (w: RoomRef, a: Action)
      requires Valid()
      modifies Repr
      ensures Valid() && Outcome(state, w, a) == Do(old(state), where, arg)
    {
      if R_IN_391LAB != where {
        return where, AllowEdit;
      }
      if !Same("391", arg) && !Same("mp2", arg) {
        return where, AllowEdit;
      }
      if objects[O_BOOK_C].loc != R_INVENTORY {
        return where, DiscardText;
      }
      if objects[O_MP2].loc != R_INVENTORY {
        return where, DiscardText;
      }
      if objects[O_TUX].loc != R_IN_391LAB {
        return where, DiscardText;
      }
      return NONE, ChangeRoom;
    }

    method TypedCmdDrink(where: RoomId, arg: string) returns (w: RoomRef, a: Action)
      requires Valid()
      modifies Repr
      ensures Valid() && Outcome(state, w, a) == Drink(old(state), where, arg)
    {
      hide Remove;
      if !Same("dew", arg) {
        return where, AllowEdit;
      }
      if objects[O_MTN_DEW].loc != R_INVENTORY && objects[O_MTN_DEW].loc != where {
        return where, DiscardText;
      }
      RemoveObject(O_MTN_DEW);
      return where, RedrawRoom;
    }

    method TypedCmdDrop(where: RoomId, arg: string, rnd: Rand) returns (w: RoomRef, a: Action)
      requires Valid() && PlayerPlaced(state, where)
      modifies Repr
      ensures Valid() && Outcome(state, w, a) == Drop(old(state), where, arg, rnd)
    {
      hide Insert, InsertAt;
      var o := FindInRoom(R_INVENTORY, arg);
      if o == NONE {
        return where, AllowEdit;
      }
      var dest := if R_INVENTORY == where then rooms[R_INVENTORY].enter else where;
      InsertObject(o, dest, rnd);
      return where, RedrawRoom;
    }

    method TypedCmdFix(where: RoomId, arg: string, rnd: Rand) returns (w: RoomRef, a: Action)
      requires Valid()
      modifies Repr
      ensures Valid() && Outcome(state, w, a) == Fix(old(state), where, arg, rnd)
    {
      hide ToInventory;
      if !Same("gps", arg) {
        return where, AllowEdit;
      }
      if objects[O_GPS_GOOD].loc == R_INVENTORY || objects[O_GPS_GOOD].loc == where {
        return where, DiscardText;
      }
      if objects[O_GPS_BAD].loc != R_INVENTORY && objects[O_GPS_BAD].loc != where {
        return where, DiscardText;
      }
      if R_IN_CLEANR != where {
        return where, DiscardText;
      }
      if objects[O_GPS_SPEC].loc != R_INVENTORY && objects[O_GPS_SPEC].loc != where {
        return where, DiscardText;
      }
      assert Fix(state, where, arg, rnd).s
          == ToInventory(Remove(Remove(state, O_GPS_BAD), O_GPS_SPEC), O_GPS_GOOD, rnd);
      RemoveObject(O_GPS_BAD);
      RemoveObject(O_GPS_SPEC);
      MoveObjectToInventory(O_GPS_GOOD, rnd);
      return where, ChangeRoom;
    }

    method TypedCmdFlash(where: RoomId, arg: string, rnd: Rand) returns (w: RoomRef, a: Action)
      requires Valid()
      modifies Repr
      ensures Valid() && Outcome(state, w, a) == Flash(old(state), where, arg, rnd)
    {
      hide Same, Remove, ToInventory, FlagsMirrored;
      if !Same("robot", arg) {
        return where, AllowEdit;
      }
      if objects[O_ROBOT_DEAD].loc != R_INVENTORY && objects[O_ROBOT_DEAD].loc != where &&
         objects[O_ROBOT_LIVE].loc != R_INVENTORY && objects[O_ROBOT_LIVE].loc != where {
        return where, DiscardText;
      }
      if R_IN_395LAB != where {
        return where, DiscardText;
      }
      if objects[O_ROBOT_LIVE].loc == R_INVENTORY || objects[O_ROBOT_LIVE].loc == where {
        return where, DiscardText;
      }
      RemoveObject(O_ROBOT_DEAD);
      MoveObjectToInventory(O_ROBOT_LIVE, rnd);
      return where, RedrawRoom;
    }

    method ObjSpecialGet(r: RoomId, arg: string) returns (o: ObjRef)
      requires Valid()
      modifies Repr
      ensures Valid() && Special(state, o) == SpecialGet(old(state), r, arg)
    {
      if R_RESERVE == r && Same("book", arg) {
        var eaten := PlayerFlagIsSet(HasEaten);
        if eaten {
          if objects[O_BOOK_C].loc == NONE {
            return O_BOOK_C;
          }
        } else {
          if objects[O_BOOK_WODE].loc == NONE {
            return O_BOOK_WODE;
          }
        }
      }
      if R_CAR_SITE == r && objects[O_BATT_CAR].loc == r {
        RemoveObject(O_BATT_CAR);
        return O_BATT_EMPTY;
      }
      return NONE;
    }

    /** What the record of an object on a room's chain says. */
    lemma ObjectMirrored(r: RoomId, k: nat)
      requires Valid() && k < |state.contents[r]|
      ensures var o := state.contents[r][k];
              && state.obj[o] == ObjInfo(objects[o].loc, objects[o].x, objects[o].y)
              && objects[o].next == Link(state.contents[r], k + 1)
    {
      assert Chain(state.contents[r], rooms[r].contents, objects[..]);
    }

    lemma RoomMirrored(r: RoomId)
      requires Valid()
      ensures state.Shaped() && state.media == media && media.Valid()
      ensures rooms[r].view == state.view[r] && rooms[r].contents == Link(state.contents[r], 0)
    {
      assert Chain(state.contents[r], rooms[r].contents, objects[..]);
    }

    lemma EdgeMirrored(r: RoomId)
      requires Valid()
      ensures state.Shaped() && rooms[r].enter == state.enter[r]
    {
    }

    method TypedCmdGet(where: RoomId, arg: string, rnd: Rand) returns (w: RoomRef, a: Action)
      requires Valid() && PlayerPlaced(state, where)
      modifies Repr
      ensures Valid() && Outcome(state, w, a) == Get(old(state), where, arg, rnd)
    {
      hide ToInventory, FindByName, Mirrors, FlagsMirrored;
      EdgeMirrored(R_INVENTORY);
      var src := if R_INVENTORY == where then rooms[R_INVENTORY].enter else where;
      var o := ObjSpecialGet(src, arg);
      if o == NONE {
        o := FindInRoom(src, arg);
      }
      if o == NONE {
        return where, AllowEdit;
      }
      var lured := PlayerFlagIsSet(LuredTux);
      if O_TUX == o && !lured {
        return where, DiscardText;
      }
      MoveObjectToInventory(o, rnd);
      return where, RedrawRoom;
    }

    method TypedCmdGo(where: RoomId, arg: string) returns (w: RoomRef, a: Action)
      requires Valid()
      modifies Repr
      ensures Valid() && Outcome(state, w, a) == Go(old(state), where, arg)
    {
      var fixed := PlayerFlagIsSet(CarFixed);
      if Same("allerton", arg) {
        if R_ALLERTON == where {
          return where, DiscardText;
        }
        if R_WILLARD != where && R_CAR_SITE != where {
          return where, DiscardText;
        }
        if !fixed {
          return where, DiscardText;
        }
        if objects[O_GPS_GOOD].loc != R_INVENTORY {
          return where, DiscardText;
        }
        return R_ALLERTON, ChangeRoom;
      }
      if Same("willard", arg) || Same("airport", arg) {
        if R_WILLARD == where {
          return where, DiscardText;
        }
        if R_ALLERTON != where && R_CAR_SITE != where {
          return where, DiscardText;
        }
        if !fixed {
          return where, DiscardText;
        }
        return R_WILLARD, ChangeRoom;
      }
      if Same("campus", arg) {
        if R_CAR_SITE == where {
          return where, DiscardText;
        }
        if R_ALLERTON != where && R_WILLARD != where {
          return where, DiscardText;
        }
        return R_CAR_SITE, ChangeRoom;
      }
      return where, AllowEdit;
    }

    method TypedCmdInstall(where: RoomId, arg: string) returns (w: RoomRef, a: Action)
      requires Valid()
      modifies Repr
      ensures Valid() && Outcome(state, w, a) == Install(old(state), where, arg)
    {
      hide Remove;
      if Same("battery", arg) {
        if objects[O_BATT_EMPTY].loc != R_INVENTORY && objects[O_BATT_EMPTY].loc != where &&
           objects[O_BATT_FULL].loc != R_INVENTORY && objects[O_BATT_FULL].loc != where {
          return where, DiscardText;
        }
        if R_CAR_SITE != where {
          return where, DiscardText;
        }
        if objects[O_BATT_EMPTY].loc == R_INVENTORY || objects[O_BATT_EMPTY].loc == where {
          return where, DiscardText;
        }
        RemoveObject(O_BATT_FULL);
        PlayerSetFlag(CarFixed);
        DoPhotoSwap(where, SWAP_CAR);
        return where, ChangeRoom;
      }
      if Same("mimo", arg) || Same("card", arg) || Same("transmitter", arg) {
        if objects[O_MIMO_CARD].loc != R_INVENTORY && objects[O_MIMO_CARD].loc != where {
          return where, DiscardText;
        }
        if R_COCKPIT != where {
          return where, DiscardText;
        }
        RemoveObject(O_MIMO_CARD);
        SetEnter(R_COCKPIT, R_OVER_WILL);
        return where, RedrawRoom;
      }
      return where, AllowEdit;
    }

    /** room[r].enter = dest */
    method SetEnter(r: RoomId, dest: RoomRef)
      requires Valid()
      modifies this`state, rooms
      ensures Valid() && state == old(state).(enter := old(state).enter[r := dest])
    {
      rooms[r] := rooms[r].(enter := dest);
      state := state.(enter := state.enter[r := dest]);
      EnterMirrored(old(state), old(rooms[..]), objects[..], r, dest);
    }

    method TypedCmdInventory(where: RoomId) returns (w: RoomRef, a: Action)
      requires Valid()
      modifies Repr
      ensures Valid() && Outcome(state, w, a) == Inventory(old(state), where)
    {
      if R_INVENTORY == where {
        return rooms[where].enter, ChangeRoom;
      }
      SetEnter(R_INVENTORY, where);
      return R_INVENTORY, ChangeRoom;
    }

    method TypedCmdSigh(where: RoomId) returns (w: RoomRef, a: Action)
      requires Valid()
      modifies Repr
      ensures Valid() && Outcome(state, w, a) == Sigh(old(state), where)
    {
      if R_BY_ZAS == where {
        PlayerSetFlag(HasEaten);
      }
      return where, DiscardText;
    }

    method TypedCmdUse(where: RoomId, arg: string, rnd: Rand) returns (w: RoomRef, a: Action)
      requires Valid()
      modifies Repr
      ensures Valid() && Outcome(state, w, a) == Use(old(state), where, arg, rnd)
    {
      hide Remove, ToInventory, InsertAt;
      if Same("car", arg) {
        if R_ALLERTON == where || R_WILLARD == where || R_CAR_SITE != where {
          return where, DiscardText;
        }
        var fixed := PlayerFlagIsSet(CarFixed);
        if fixed {
          return where, DiscardText;
        }
        var open := PlayerFlagIsSet(CarOpen);
        if open {
          return where, DiscardText;
        }
        if objects[O_CAR_KEY].loc != R_INVENTORY {
          return where, DiscardText;
        }
        DoPhotoSwap(where, SWAP_CAR);
        RemoveObject(O_CAR_KEY);
        InsertObjectAt(O_BATT_CAR, where, 265, 122);
        PlayerSetFlag(CarOpen);
        return where, ChangeRoom;
      }
      if Same("fish", arg) {
        if objects[O_FISH].loc != R_INVENTORY && objects[O_FISH].loc != where {
          return where, DiscardText;
        }
        if R_REM_LAB != where {
          return where, DiscardText;
        }
        RemoveObject(O_FISH);
        MoveObjectToInventory(O_TUX, rnd);
        PlayerSetFlag(LuredTux);
        return where, RedrawRoom;
      }
      return where, AllowEdit;
    }

    method TypedCmdWear(where: RoomId, arg: string) returns (w: RoomRef, a: Action)
      requires Valid()
      modifies Repr
      ensures Valid() && Outcome(state, w, a) == Wear(old(state), where, arg)
    {
      hide Remove;
      if !Same("bunnysuit", arg) {
        return where, AllowEdit;
      }
      if objects[O_BUNNYSUIT].loc != R_INVENTORY && objects[O_BUNNYSUIT].loc != where {
        return where, DiscardText;
      }
      RemoveObject(O_BUNNYSUIT);
      PlayerSetFlag(WearingSuit);
      return where, RedrawRoom;
    }

    /** What the events of the game loop do to the world. */
    method CarryOut(where: RoomId, deed: Deed, rnd: Rand) returns (w: RoomRef, a: Action)
      requires Valid() && PlayerPlaced(state, where)
      modifies Repr
      ensures Valid() && Outcome(state, w, a) == Perform(old(state), where, deed, rnd)
    {
      match deed
      case GoLeft => w, a := TryToMoveLeft(where, rnd);
      case GoEnter => w, a := TryToEnter(where, rnd);
      case GoRight => w, a := TryToMoveRight(where, rnd);
      case Typed(verb, arg) =>
        match verb
        case VBuy => w, a := TypedCmdBuy(where, arg, rnd);
        case VCharge => w, a := TypedCmdCharge(where, arg, rnd);
        case VDo => w, a := TypedCmdDo(where, arg);
        case VDrink => w, a := TypedCmdDrink(where, arg);
        case VDrop => w, a := TypedCmdDrop(where, arg, rnd);
        case VFix => w, a := TypedCmdFix(where, arg, rnd);
        case VFlash => w, a := TypedCmdFlash(where, arg, rnd);
        case VGet => w, a := TypedCmdGet(where, arg, rnd);
        case VGo => w, a := TypedCmdGo(where, arg);
        case VInstall => w, a := TypedCmdInstall(where, arg);
        case VInventory => w, a := TypedCmdInventory(where);
        case VSigh => w, a := TypedCmdSigh(where);
        case VUse => w, a := TypedCmdUse(where, arg, rnd);
        case VWear => w, a := TypedCmdWear(where, arg);
    }
  }

  /** os' and rs' are the records after unlinking position k of room r's list. */
  ghost predicate Unlinked(q: seq<ObjId>, rs: seq<Room>, os: seq<Object>, r: RoomId, k: nat, rs': seq<Room>, os': seq<Object>)
    requires |rs| == N_ROOMS && |os| == N_OBJECTS && k < |q|
  {
    var o := q[k];
    if k == 0 then rs' == rs[r := rs[r].(contents := os[o].next)] && os' == os[o := os[o].(loc := NONE)]
    else rs' == rs && os' == os[q[k - 1] := os[q[k - 1]].(next := os[o].next)][o := os[o].(loc := NONE)]
  }

  /** The records after unlinking mirror the abstract removal. */
  lemma RemoveMirrored(s: State, rs: seq<Room>, os: seq<Object>, r: RoomId, k: nat, rs': seq<Room>, os': seq<Object>)
    requires Mirrors(s, rs, os) && k < |s.contents[r]|
    requires Unlinked(s.contents[r], rs, os, r, k, rs', os')
    ensures Mirrors(Remove(s, s.contents[r][k]), rs', os')
  {
    var q := s.contents[r];
    var o := q[k];
    assert s.ListAgrees(r);
    assert o in q;
    RemoveKeepsLists(s, o);
    WithoutAt(q, k);
    var t := Remove(s, o);
    RemoveKeepsRecords(s, rs, os, r, k, rs', os');
    forall u: RoomId
      ensures Chain(t.contents[u], rs'[u].contents, os')
    {
      RemoveKeepsChain(s, rs, os, r, k, rs', os', u);
    }
  }

  lemma RemoveKeepsRecords(s: State, rs: seq<Room>, os: seq<Object>, r: RoomId, k: nat, rs': seq<Room>, os': seq<Object>)
    requires s.Shaped() && RecordsMatch(s, rs, os) && k < |s.contents[r]| && s.obj[s.contents[r][k]].loc == r
    requires Unlinked(s.contents[r], rs, os, r, k, rs', os')
    ensures RecordsMatch(Remove(s, s.contents[r][k]), rs', os')
  {
  }

  lemma RemoveKeepsChain(s: State, rs: seq<Room>, os: seq<Object>, r: RoomId, k: nat, rs': seq<Room>, os': seq<Object>, u: RoomId)
    requires Mirrors(s, rs, os) && k < |s.contents[r]|
    requires Unlinked(s.contents[r], rs, os, r, k, rs', os')
    ensures if u == r then Chain(s.contents[r][..k] + s.contents[r][k + 1..], rs'[u].contents, os')
            else Chain(s.contents[u], rs'[u].contents, os')
  {
    var q, p := s.contents[r], s.contents[u];
    assert s.ListAgrees(u) && Chain(p, rs[u].contents, os);
    assert s.ListAgrees(r) && Chain(q, rs[r].contents, os);
    if u == r {
      UnlinkedChain(q, rs[r].contents, os, k, rs'[r].contents, os');
    } else {
      assert q[k] in q && (k > 0 ==> q[k - 1] in q);
      if k > 0 {
        ChainFrame(p, rs[u].contents, os, q[k - 1], os[q[k - 1]].(next := os[q[k]].next));
        ChainFrame(p, rs[u].contents, os[q[k - 1] := os[q[k - 1]].(next := os[q[k]].next)], q[k], os'[q[k]]);
      } else {
        ChainFrame(p, rs[u].contents, os, q[k], os'[q[k]]);
      }
    }
  }

  lemma UnlinkedChain(q: seq<ObjId>, head: ObjRef, os: seq<Object>, k: nat, head': ObjRef, os': seq<Object>)
    requires |os| == N_OBJECTS && Chain(q, head, os) && NoDuplicates(q) && k < |q|
    requires if k == 0 then head' == os[q[0]].next && os' == os[q[0] := os[q[0]].(loc := NONE)]
             else
               && head' == head
               && os' == os[q[k - 1] := os[q[k - 1]].(next := os[q[k]].next)][q[k] := os[q[k]].(loc := NONE)]
    ensures Chain(q[..k] + q[k + 1..], head', os')
  {
    if k == 0 {
      UnlinkFirst(q, head, os);
      assert q[..0] + q[1..] == q[1..];
      ChainFrame(q[1..], head', os, q[0], os'[q[0]]);
    } else {
      UnlinkLater(q, head, os, k);
      ChainFrame(q[..k] + q[k + 1..], head', os[q[k - 1] := os[q[k - 1]].(next := os[q[k]].next)], q[k], os'[q[k]]);
    }
  }

  /** The records after prepending o, taken out of limbo, mirror the abstract insertion. */
  lemma InsertMirrored(s: State, rs: seq<Room>, os: seq<Object>, o: ObjId, r: RoomId, x: nat, y: nat)
    requires Mirrors(s, rs, os) && s.In(o, NONE)
    ensures Mirrors(InsertAt(s, o, r, x, y),
                    rs[r := rs[r].(contents := o)], os[o := Object(rs[r].contents, r, x, y)])
  {
    InsertKeepsLists(s, o, r, x, y);
    var t := InsertAt(s, o, r, x, y);
    var w := Object(rs[r].contents, r, x, y);
    forall u: RoomId
      ensures Chain(t.contents[u], rs[r := rs[r].(contents := o)][u].contents, os[o := w])
    {
      assert s.ListAgrees(u) && Chain(s.contents[u], rs[u].contents, os);
      ChainFrame(s.contents[u], rs[u].contents, os, o, w);
    }
  }

  lemma SwapMirrored(s: State, rs: seq<Room>, os: seq<Object>, r: RoomId, which: nat)
    requires Mirrors(s, rs, os) && which < N_SWAPS
    ensures Mirrors(SwapPhoto(s, r, which), rs[r := rs[r].(view := s.swap[which])], os)
  {
    var t := SwapPhoto(s, r, which);
    SameLists(s, t);
    forall u: RoomId
      ensures Chain(t.contents[u], rs[r := rs[r].(view := s.swap[which])][u].contents, os)
    {
      assert Chain(s.contents[u], rs[u].contents, os);
    }
  }

  lemma EnterMirrored(s: State, rs: seq<Room>, os: seq<Object>, r: RoomId, dest: RoomRef)
    requires Mirrors(s, rs, os)
    ensures Mirrors(s.(enter := s.enter[r := dest]), rs[r := rs[r].(enter := dest)], os)
  {
    var t := s.(enter := s.enter[r := dest]);
    SameLists(s, t);
    forall u: RoomId
      ensures Chain(t.contents[u], rs[r := rs[r].(enter := dest)][u].contents, os)
    {
      assert Chain(s.contents[u], rs[u].contents, os);
    }
  }
}
