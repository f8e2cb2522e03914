/** The adventure world as a value: what each operation of mp2/world.c does to
    the rooms, the objects, and the player, without pointers. */
module WorldSpec {
  import opened WorldTables
  import opened Photo

  /** The images read when the world is built: one photo for each room followed by
      the swapped-out photos, and one image for each object. */
  datatype Media = Media(photos: seq<Image>, images: seq<Image>) {
    ghost predicate Valid() {
      && |photos| == N_ROOMS + N_SWAPS && |images| == N_OBJECTS
      && (forall p | 0 <= p < |photos| ::
            photos[p].Valid() && photos[p].width <= MAX_PHOTO_WIDTH && photos[p].height <= MAX_PHOTO_HEIGHT)
      && (forall o | 0 <= o < |images| ::
            images[o].Valid() && images[o].width <= MAX_OBJECT_WIDTH && images[o].height <= MAX_OBJECT_HEIGHT)
    }
  }

  datatype ObjInfo = ObjInfo(loc: RoomRef, x: nat, y: nat)

  /** contents[r] lists room r's objects in list order; enter[r] is the edge taken by "enter". */
  datatype State = State(
    media: Media,
    obj: seq<ObjInfo>,
    contents: seq<seq<ObjId>>,
    enter: seq<RoomRef>,
    view: seq<nat>,
    swap: seq<nat>,
    flags: set<Flag>)
  {
    ghost predicate Shaped() {
      && media.Valid()
      && |obj| == N_OBJECTS && |contents| == N_ROOMS && |enter| == N_ROOMS && |view| == N_ROOMS
      && |swap| == N_SWAPS
      && (forall r | 0 <= r < N_ROOMS :: view[r] < N_ROOMS + N_SWAPS)
      && (forall w | 0 <= w < N_SWAPS :: swap[w] < N_ROOMS + N_SWAPS)
    }

    /** Room r's contents list is duplicate-free and holds exactly the objects whose location is r. */
    ghost predicate ListAgrees(r: RoomId)
      requires Shaped()
    {
      && NoDuplicates(contents[r])
      && (forall o: ObjId :: o in contents[r] <==> obj[o].loc == r)
    }

    ghost predicate WellFormed() {
      Shaped() && forall r: RoomId :: ListAgrees(r)
    }

    predicate In(o: ObjId, r: RoomRef)
      requires Shaped()
    {
      obj[o].loc == r
    }

    /** In the player's inventory or in the room r. */
    predicate Near(o: ObjId, r: RoomId)
      requires Shaped()
    {
      In(o, R_INVENTORY) || In(o, r)
    }
  }

  ghost predicate NoDuplicates(q: seq<ObjId>) {
    forall i, j | 0 <= i < j < |q| :: q[i] != q[j]
  }

  /** The values that successive calls of rand () would return. */
  datatype Rand = Rand(first: nat, second: nat)

  datatype Action = AllowEdit | DiscardText | RedrawRoom | ChangeRoom

  /** What a player action leaves: the world, the player's room (NONE once the game is won), and its result code. */
  datatype Outcome = Outcome(s: State, where: RoomRef, action: Action)

  // ----- moving objects -----

  function Without(q: seq<ObjId>, o: ObjId): seq<ObjId> {
    if q == [] then [] else if q[0] == o then q[1..] else [q[0]] + Without(q[1..], o)
  }

  function Remove(s: State, o: ObjId): State
    requires s.Shaped()
  {
    var r := s.obj[o].loc;
    if r == NONE then s
    else s.(obj := s.obj[o := s.obj[o].(loc := NONE)], contents := s.contents[r := Without(s.contents[r], o)])
  }

  function InsertAt(s: State, o: ObjId, r: RoomId, x: nat, y: nat): State
    requires s.Shaped()
  {
    var t := Remove(s, o);
    t.(obj := t.obj[o := ObjInfo(r, x, y)], contents := t.contents[r := [o] + t.contents[r]])
  }

  function RandomX(s: State, o: ObjId, r: RoomId, rnd: Rand): nat
    requires s.Shaped()
  {
    var range := s.media.photos[s.view[r]].width - s.media.images[o].width;
    if 0 >= range then 0 else rnd.first % range
  }

  /** The call of rand () that chooses y is the second one only if x needed one. */
  function RandomY(s: State, o: ObjId, r: RoomId, rnd: Rand): nat
    requires s.Shaped()
  {
    var space := s.media.photos[s.view[r]].height;
    var imgHt := s.media.images[o].height;
    var draw := if s.media.photos[s.view[r]].width <= s.media.images[o].width then rnd.first else rnd.second;
    if space / 4 - imgHt > 0 then draw % (space / 4 - imgHt) + 3 * space / 4
    else if space - imgHt > 0 then draw % (space - imgHt)
    else 0
  }

  function Insert(s: State, o: ObjId, r: RoomId, rnd: Rand): State
    requires s.Shaped()
  {
    InsertAt(s, o, r, RandomX(s, o, r, rnd), RandomY(s, o, r, rnd))
  }

  /** Inventory grid: 4 rows of 3 slots, numbered row by row. */
  const SLOTS := 12

  function SlotX(k: nat): nat {
    if k == 0 || k == 3 || k == 6 || k == 9 then 10
    else if k == 1 || k == 4 || k == 7 || k == 10 then 110
    else 210
  }

  function SlotY(k: nat): nat {
    if k < 3 then 10 else if k < 6 then 60 else if k < 9 then 110 else 160
  }

  /** Some object in the inventory view is at (x, y). */
  predicate Taken(s: State, x: nat, y: nat)
    requires s.Shaped()
  {
    exists i | 0 <= i < |s.contents[R_INVENTORY]| ::
      s.obj[s.contents[R_INVENTORY][i]].x == x && s.obj[s.contents[R_INVENTORY][i]].y == y
  }

  predicate SlotTaken(s: State, k: nat)
    requires s.Shaped()
  {
    Taken(s, SlotX(k), SlotY(k))
  }

  /** The first free slot numbered k or more, or SLOTS if there is none. */
  function FreeSlot(s: State, k: nat): (f: nat)
    requires s.Shaped() && k <= SLOTS
    ensures k <= f <= SLOTS
    decreases SLOTS - k
  {
    if k == SLOTS || !SlotTaken(s, k) then k else FreeSlot(s, k + 1)
  }

  /** The slot chosen is free, and all before it are taken ... */
  lemma {:induction false} ChosenSlotIsFirstFree(s: State, k: nat)
    requires s.Shaped() && k <= SLOTS
    ensures FreeSlot(s, k) < SLOTS ==> !SlotTaken(s, FreeSlot(s, k))
    ensures forall j | k <= j < FreeSlot(s, k) :: SlotTaken(s, j)
    decreases SLOTS - k
  {
    if k < SLOTS && SlotTaken(s, k) {
      ChosenSlotIsFirstFree(s, k + 1);
    }
  }

  /** ... and no other slot is like that. */
  lemma {:induction false} FirstFreeSlotIsChosen(s: State, k: nat, f: nat)
    requires s.Shaped() && k <= f <= SLOTS
    requires f < SLOTS ==> !SlotTaken(s, f)
    requires forall j | k <= j < f :: SlotTaken(s, j)
    ensures FreeSlot(s, k) == f
    decreases SLOTS - k
  {
    if k < f {
      FirstFreeSlotIsChosen(s, k + 1, f);
    }
  }

  function ToInventory(s: State, o: ObjId, rnd: Rand): State
    requires s.Shaped()
  {
    var k := FreeSlot(s, 0);
    if k < SLOTS then InsertAt(s, o, R_INVENTORY, SlotX(k), SlotY(k)) else Insert(s, o, R_INVENTORY, rnd)
  }

  function SwapPhoto(s: State, r: RoomId, which: nat): State
    requires s.Shaped() && which < N_SWAPS
  {
    s.(view := s.view[r := s.swap[which]], swap := s.swap[which := s.view[r]])
  }

  /** The first object of a list whose keyword matches. */
  function FindByName(q: seq<ObjId>, arg: string): ObjRef {
    if q == [] then NONE else if Same(arg, Name(q[0])) then q[0] else FindByName(q[1..], arg)
  }

  function Find(s: State, r: RoomId, arg: string): ObjRef
    requires s.Shaped()
  {
    FindByName(s.contents[r], arg)
  }

  // ----- what moving objects keeps -----

  lemma {:induction false} WithoutAt(q: seq<ObjId>, k: nat)
    requires k < |q| && forall j | 0 <= j < k :: q[j] != q[k]
    ensures Without(q, q[k]) == q[..k] + q[k + 1..]
  {
    if k > 0 {
      WithoutAt(q[1..], k - 1);
    }
  }

  /** Taking an object out of a list leaves the others, in their order. */
  lemma WithoutKeepsOthers(q: seq<ObjId>, o: ObjId)
    requires NoDuplicates(q)
    ensures NoDuplicates(Without(q, o))
    ensures forall p: ObjId :: p in Without(q, o) <==> p in q && p != o
    ensures o !in q ==> Without(q, o) == q
  {
    hide Without;
    if o in q {
      var k :| 0 <= k < |q| && q[k] == o;
      WithoutAt(q, k);
      var w := Without(q, o);
      forall p: ObjId | p in q && p != o
        ensures p in w
      {
        var i :| 0 <= i < |q| && q[i] == p;
        assert p == w[if i < k then i else i - 1];
      }
    } else {
      AbsentMeansUnchanged(q, o);
    }
  }

  lemma {:induction false} AbsentMeansUnchanged(q: seq<ObjId>, o: ObjId)
    requires o !in q
    ensures Without(q, o) == q
  {
    if q != [] {
      AbsentMeansUnchanged(q[1..], o);
    }
  }

  /** Removing an object puts it in limbo, moves no other, and keeps all lists in agreement. */
  lemma RemoveKeepsLists(s: State, o: ObjId)
    requires s.WellFormed()
    ensures Remove(s, o).WellFormed() && Remove(s, o).In(o, NONE)
    ensures forall p: ObjId | p != o :: Remove(s, o).obj[p] == s.obj[p]
  {
    var t, loc := Remove(s, o), s.obj[o].loc;
    if loc != NONE {
      assert s.ListAgrees(loc);
      WithoutKeepsOthers(s.contents[loc], o);
      forall r: RoomId
        ensures t.ListAgrees(r)
      {
        assert s.ListAgrees(r);
      }
    }
  }

  /** Inserting moves one object, to the front of the room's list, and keeps all lists in agreement. */
  lemma InsertKeepsLists(s: State, o: ObjId, r: RoomId, x: nat, y: nat)
    requires s.WellFormed()
    ensures InsertAt(s, o, r, x, y).WellFormed()
    ensures InsertAt(s, o, r, x, y).obj[o] == ObjInfo(r, x, y)
    ensures forall p: ObjId | p != o :: InsertAt(s, o, r, x, y).obj[p] == s.obj[p]
  {
    RemoveKeepsLists(s, o);
    var t, u := Remove(s, o), InsertAt(s, o, r, x, y);
    forall v: RoomId
      ensures u.ListAgrees(v)
    {
      assert t.ListAgrees(v);
    }
  }

  /** Flags, photos and edges have no part in the agreement of lists and locations. */
  lemma SameLists(s: State, t: State)
    requires s.WellFormed() && t.Shaped() && t.obj == s.obj && t.contents == s.contents
    ensures t.WellFormed()
  {
    forall r: RoomId
      ensures t.ListAgrees(r)
    {
      assert s.ListAgrees(r);
    }
  }

  // ----- motion -----

  /** Arrival in a room; the photo of the Boneyard bridge is chosen at random. */
  function Arrive(s: State, r: RoomId, rnd: Rand): Outcome
    requires s.Shaped()
  {
    Outcome(if r == R_CIRCLE_N && rnd.first % 2 == 0 then SwapPhoto(s, r, SWAP_CIRCLE) else s, r, ChangeRoom)
  }

  function MoveLeft(s: State, where: RoomId, rnd: Rand): Outcome
    requires s.Shaped()
  {
    if LeftOf(where) != NONE then Arrive(s, LeftOf(where), rnd) else Outcome(s, where, AllowEdit)
  }

  function MoveRight(s: State, where: RoomId, rnd: Rand): Outcome
    requires s.Shaped()
  {
    if RightOf(where) != NONE then Arrive(s, RightOf(where), rnd) else Outcome(s, where, AllowEdit)
  }

  /** "enter": an edge if the room has one, else a locked door if the player can open it. */
  function Enter(s: State, where: RoomId, rnd: Rand): Outcome
    requires s.Shaped()
  {
    if s.enter[where] != NONE then Arrive(s, s.enter[where], rnd)
    else if where == R_BY_CLEANR && WearingSuit in s.flags then Outcome(s, R_IN_CLEANR, ChangeRoom)
    else if where == R_BY_395LAB && s.In(O_ICARD, R_INVENTORY) then Outcome(s, R_IN_395LAB, ChangeRoom)
    else if where == R_CSL_DOOR && s.In(O_ICARD, R_INVENTORY) then Outcome(s, R_CSL_LOBBY, ChangeRoom)
    else if where == R_BECK_DOOR && s.In(O_ROBOT_LIVE, R_INVENTORY) then Outcome(s, R_BECKLOBBY, ChangeRoom)
    else Outcome(s, where, AllowEdit)
  }

  // ----- typed commands -----

  function Buy(s: State, where: RoomId, arg: string, rnd: Rand): Outcome
    requires s.Shaped()
  {
    if Same("dew", arg) then
      if where != R_EVRT_VEND || s.Near(O_MTN_DEW, where) then Outcome(s, where, DiscardText)
      else Outcome(ToInventory(s, O_MTN_DEW, rnd), where, RedrawRoom)
    else if Same("yogurt", arg) then
      Outcome(if where == R_IN_COCOMR then s.(flags := s.flags + {HasEaten}) else s, where, DiscardText)
    else Outcome(s, where, AllowEdit)
  }

  function Charge(s: State, where: RoomId, arg: string, rnd: Rand): Outcome
    requires s.Shaped()
  {
    if !Same("battery", arg) then Outcome(s, where, AllowEdit)
    else if !s.Near(O_BATT_EMPTY, where) && !s.Near(O_BATT_FULL, where) then Outcome(s, where, DiscardText)
    else if where != R_BECK_MRI || s.Near(O_BATT_FULL, where) then Outcome(s, where, DiscardText)
    else Outcome(ToInventory(Remove(s, O_BATT_EMPTY), O_BATT_FULL, rnd), where, RedrawRoom)
  }

  /** The command that wins the game. */
  function Do(s: State, where: RoomId, arg: string): Outcome
    requires s.Shaped()
  {
    if where != R_IN_391LAB || !(Same("391", arg) || Same("mp2", arg)) then Outcome(s, where, AllowEdit)
    else if !s.In(O_BOOK_C, R_INVENTORY) || !s.In(O_MP2, R_INVENTORY) || !s.In(O_TUX, R_IN_391LAB) then
      Outcome(s, where, DiscardText)
    else Outcome(s, NONE, ChangeRoom)
  }

  function Drink(s: State, where: RoomId, arg: string): Outcome
    requires s.Shaped()
  {
    if !Same("dew", arg) then Outcome(s, where, AllowEdit)
    else if !s.Near(O_MTN_DEW, where) then Outcome(s, where, DiscardText)
    else Outcome(Remove(s, O_MTN_DEW), where, RedrawRoom)
  }

  /** The room the player stands in, which is not the one viewed while looking at the inventory. */
  function Standing(s: State, where: RoomId): RoomRef
    requires s.Shaped()
  {
    if where == R_INVENTORY then s.enter[R_INVENTORY] else where
  }

  function Drop(s: State, where: RoomId, arg: string, rnd: Rand): Outcome
    requires s.Shaped() && Standing(s, where) != NONE
  {
    var o := Find(s, R_INVENTORY, arg);
    if o == NONE then Outcome(s, where, AllowEdit)
    else Outcome(Insert(s, o, Standing(s, where), rnd), where, RedrawRoom)
  }

  function Fix(s: State, where: RoomId, arg: string, rnd: Rand): Outcome
    requires s.Shaped()
  {
    if !Same("gps", arg) then Outcome(s, where, AllowEdit)
    else if s.Near(O_GPS_GOOD, where) || !s.Near(O_GPS_BAD, where) || where != R_IN_CLEANR || !s.Near(O_GPS_SPEC, where) then
      Outcome(s, where, DiscardText)
    else
      Outcome(ToInventory(Remove(Remove(s, O_GPS_BAD), O_GPS_SPEC), O_GPS_GOOD, rnd), where, ChangeRoom)
  }

  function Flash(s: State, where: RoomId, arg: string, rnd: Rand): Outcome
    requires s.Shaped()
  {
    if !Same("robot", arg) then Outcome(s, where, AllowEdit)
    else if (!s.Near(O_ROBOT_DEAD, where) && !s.Near(O_ROBOT_LIVE, where)) || where != R_IN_395LAB
            || s.Near(O_ROBOT_LIVE, where) then
      Outcome(s, where, DiscardText)
    else Outcome(ToInventory(Remove(s, O_ROBOT_DEAD), O_ROBOT_LIVE, rnd), where, RedrawRoom)
  }

  /** The special effects of "get": a library book, and the battery under the hood. */
  datatype Special = Special(s: State, o: ObjRef)

  function SpecialGet(s: State, r: RoomId, arg: string): Special
    requires s.Shaped()
  {
    if r == R_RESERVE && Same("book", arg) && HasEaten in s.flags && s.In(O_BOOK_C, NONE) then Special(s, O_BOOK_C)
    else if r == R_RESERVE && Same("book", arg) && HasEaten !in s.flags && s.In(O_BOOK_WODE, NONE) then Special(s, O_BOOK_WODE)
    else if r == R_CAR_SITE && s.In(O_BATT_CAR, r) then Special(Remove(s, O_BATT_CAR), O_BATT_EMPTY)
    else Special(s, NONE)
  }

  function Get(s: State, where: RoomId, arg: string, rnd: Rand): Outcome
    requires s.Shaped() && Standing(s, where) != NONE
  {
    var src := Standing(s, where);
    var sp := SpecialGet(s, src, arg);
    var o := if sp.o != NONE then sp.o else Find(s, src, arg);
    if o == NONE then Outcome(sp.s, where, AllowEdit)
    else if o == O_TUX && LuredTux !in s.flags then Outcome(sp.s, where, DiscardText)
    else Outcome(ToInventory(sp.s, o, rnd), where, RedrawRoom)
  }

  function Go(s: State, where: RoomId, arg: string): Outcome
    requires s.Shaped()
  {
    if Same("allerton", arg) then
      if (where == R_WILLARD || where == R_CAR_SITE) && CarFixed in s.flags && s.In(O_GPS_GOOD, R_INVENTORY) then
        Outcome(s, R_ALLERTON, ChangeRoom)
      else Outcome(s, where, DiscardText)
    else if Same("willard", arg) || Same("airport", arg) then
      if (where == R_ALLERTON || where == R_CAR_SITE) && CarFixed in s.flags then Outcome(s, R_WILLARD, ChangeRoom)
      else Outcome(s, where, DiscardText)
    else if Same("campus", arg) then
      if where == R_ALLERTON || where == R_WILLARD then Outcome(s, R_CAR_SITE, ChangeRoom)
      else Outcome(s, where, DiscardText)
    else Outcome(s, where, AllowEdit)
  }

  function Install(s: State, where: RoomId, arg: string): Outcome
    requires s.Shaped()
  {
    if Same("battery", arg) then
      if (!s.Near(O_BATT_EMPTY, where) && !s.Near(O_BATT_FULL, where)) || where != R_CAR_SITE || s.Near(O_BATT_EMPTY, where) then
        Outcome(s, where, DiscardText)
      else
        var t := Remove(s, O_BATT_FULL);
        Outcome(SwapPhoto(t.(flags := t.flags + {CarFixed}), where, SWAP_CAR), where, ChangeRoom)
    else if Same("mimo", arg) || Same("card", arg) || Same("transmitter", arg) then
      if !s.Near(O_MIMO_CARD, where) || where != R_COCKPIT then Outcome(s, where, DiscardText)
      else
        var t := Remove(s, O_MIMO_CARD);
        Outcome(t.(enter := t.enter[R_COCKPIT := R_OVER_WILL]), where, RedrawRoom)
    else Outcome(s, where, AllowEdit)
  }

  function Inventory(s: State, where: RoomId): Outcome
    requires s.Shaped()
  {
    if where == R_INVENTORY then Outcome(s, s.enter[R_INVENTORY], ChangeRoom)
    else Outcome(s.(enter := s.enter[R_INVENTORY := where]), R_INVENTORY, ChangeRoom)
  }

  function Sigh(s: State, where: RoomId): Outcome
    requires s.Shaped()
  {
    Outcome(if where == R_BY_ZAS then s.(flags := s.flags + {HasEaten}) else s, where, DiscardText)
  }

  function Use(s: State, where: RoomId, arg: string, rnd: Rand): Outcome
    requires s.Shaped()
  {
    if Same("car", arg) then
      if where != R_CAR_SITE || CarFixed in s.flags || CarOpen in s.flags || !s.In(O_CAR_KEY, R_INVENTORY) then
        Outcome(s, where, DiscardText)
      else
        var t := InsertAt(Remove(SwapPhoto(s, where, SWAP_CAR), O_CAR_KEY), O_BATT_CAR, where, 265, 122);
        Outcome(t.(flags := t.flags + {CarOpen}), where, ChangeRoom)
    else if Same("fish", arg) then
      if !s.Near(O_FISH, where) || where != R_REM_LAB then Outcome(s, where, DiscardText)
      else
        var t := ToInventory(Remove(s, O_FISH), O_TUX, rnd);
        Outcome(t.(flags := t.flags + {LuredTux}), where, RedrawRoom)
    else Outcome(s, where, AllowEdit)
  }

  function Wear(s: State, where: RoomId, arg: string): Outcome
    requires s.Shaped()
  {
    if !Same("bunnysuit", arg) then Outcome(s, where, AllowEdit)
    else if !s.Near(O_BUNNYSUIT, where) then Outcome(s, where, DiscardText)
    else
      var t := Remove(s, O_BUNNYSUIT);
      Outcome(t.(flags := t.flags + {WearingSuit}), where, RedrawRoom)
  }

  // ----- everything the player can do -----

  datatype Verb =
    | VBuy | VCharge | VDo | VDrink | VDrop | VFix | VFlash
    | VGet | VGo | VInstall | VInventory | VSigh | VUse | VWear

  datatype Deed = GoLeft | GoEnter | GoRight | Typed(verb: Verb, arg: string)

  /** "get" and "drop" work from the inventory view because it remembers where the player stands. */
  ghost predicate PlayerPlaced(s: State, where: RoomId)
    requires s.Shaped()
  {
    where == R_INVENTORY ==> s.enter[R_INVENTORY] != NONE && s.enter[R_INVENTORY] != R_INVENTORY
  }

  function Perform(s: State, where: RoomId, deed: Deed, rnd: Rand): Outcome
    requires s.Shaped() && PlayerPlaced(s, where)
  {
    match deed
    case GoLeft => MoveLeft(s, where, rnd)
    case GoEnter => Enter(s, where, rnd)
    case GoRight => MoveRight(s, where, rnd)
    case Typed(verb, arg) =>
      match verb
      case VBuy => Buy(s, where, arg, rnd)
      case VCharge => Charge(s, where, arg, rnd)
      case VDo => Do(s, where, arg)
      case VDrink => Drink(s, where, arg)
      case VDrop => Drop(s, where, arg, rnd)
      case VFix => Fix(s, where, arg, rnd)
      case VFlash => Flash(s, where, arg, rnd)
      case VGet => Get(s, where, arg, rnd)
      case VGo => Go(s, where, arg)
      case VInstall => Install(s, where, arg)
      case VInventory => Inventory(s, where)
      case VSigh => Sigh(s, where)
      case VUse => Use(s, where, arg, rnd)
      case VWear => Wear(s, where, arg)
  }

  // ----- the world as built -----

  const START_ROOM: RoomId := R_EAST_EVRT

  /** All rooms connected and all objects in limbo. */
  function Blank(media: Media): State {
    State(media,
      seq(N_OBJECTS, _ => ObjInfo(NONE, 0, 0)),
      seq(N_ROOMS, _ => []),
      seq(N_ROOMS, r requires 0 <= r < N_ROOMS => InitialEnter(r)),
      seq(N_ROOMS, r requires 0 <= r < N_ROOMS => r),
      seq(N_SWAPS, w requires 0 <= w < N_SWAPS => N_ROOMS + w),
      {})
  }

  lemma BlankWellFormed(media: Media)
    requires media.Valid()
    ensures Blank(media).WellFormed()
  {
    forall r: RoomId
      ensures Blank(media).ListAgrees(r)
    {
      assert Blank(media).contents[r] == [];
      assert forall o: ObjId :: Blank(media).obj[o].loc == NONE;
    }
  }

  /** One object taken to its starting place. */
  function Placed(s: State, o: ObjId, rnd: Rand): (t: State)
    requires s.Shaped()
    ensures t.Shaped()
  {
    if StartRoom(o) == NONE then s
    else if HasStartPosition(o) then InsertAt(s, o, StartRoom(o), StartX(o), StartY(o))
    else Insert(s, o, StartRoom(o), rnd)
  }

  /** The world after the first k objects have been placed. */
  function Built(media: Media, rnds: seq<Rand>, k: nat): (s: State)
    requires media.Valid() && |rnds| == N_OBJECTS && k <= N_OBJECTS
    ensures s.Shaped()
  {
    if k == 0 then Blank(media) else Placed(Built(media, rnds, k - 1), k - 1, rnds[k - 1])
  }
}
