/** What chance decides in the adventure: where objects lie within a room, and which of two photos
    a room shows; never what the player's actions lead to. */
module WorldChance {
  import opened WorldTables
  import opened WorldSpec
  import opened WorldRuns

  /** The same world, but for photos and for the places of objects within their rooms. */
  ghost predicate Alike(s: State, t: State) {
    && s.Shaped() && t.Shaped() && s.flags == t.flags && s.enter == t.enter && s.contents == t.contents
    && forall o: ObjId :: s.obj[o].loc == t.obj[o].loc
  }

  /** The same outcome in alike worlds. */
  ghost predicate AlikeOutcomes(a: Outcome, b: Outcome) {
    a.where == b.where && a.action == b.action && Alike(a.s, b.s)
  }

  lemma RemoveAlike(s: State, t: State, o: ObjId)
    requires Alike(s, t)
    ensures Alike(Remove(s, o), Remove(t, o))
  {
  }

  lemma InsertAlike(s: State, t: State, o: ObjId, r: RoomId, x: nat, y: nat, x': nat, y': nat)
    requires Alike(s, t)
    ensures Alike(InsertAt(s, o, r, x, y), InsertAt(t, o, r, x', y'))
  {
    RemoveAlike(s, t, o);
  }

  lemma ToInventoryAlike(s: State, t: State, o: ObjId, rnd: Rand, rnd': Rand)
    requires Alike(s, t)
    ensures Alike(ToInventory(s, o, rnd), ToInventory(t, o, rnd'))
  {
    var k, k' := FreeSlot(s, 0), FreeSlot(t, 0);
    var inv: RoomId := R_INVENTORY;
    var x := if k < SLOTS then SlotX(k) else RandomX(s, o, inv, rnd);
    var y := if k < SLOTS then SlotY(k) else RandomY(s, o, inv, rnd);
    var x' := if k' < SLOTS then SlotX(k') else RandomX(t, o, inv, rnd');
    var y' := if k' < SLOTS then SlotY(k') else RandomY(t, o, inv, rnd');
    InsertAlike(s, t, o, inv, x, y, x', y');
  }

  lemma ArriveAlike(s: State, t: State, r: RoomId, rnd: Rand, rnd': Rand)
    requires Alike(s, t)
    ensures AlikeOutcomes(Arrive(s, r, rnd), Arrive(t, r, rnd'))
  {
  }

  lemma MotionsAlike(s: State, t: State, where: RoomId, rnd: Rand, rnd': Rand)
    requires Alike(s, t)
    ensures AlikeOutcomes(MoveLeft(s, where, rnd), MoveLeft(t, where, rnd'))
    ensures AlikeOutcomes(MoveRight(s, where, rnd), MoveRight(t, where, rnd'))
    ensures AlikeOutcomes(Enter(s, where, rnd), Enter(t, where, rnd'))
  {
    hide Arrive;
    if LeftOf(where) != NONE {
      ArriveAlike(s, t, LeftOf(where), rnd, rnd');
    }
    if RightOf(where) != NONE {
      ArriveAlike(s, t, RightOf(where), rnd, rnd');
    }
    if s.enter[where] != NONE {
      ArriveAlike(s, t, s.enter[where], rnd, rnd');
    }
  }

  lemma BuyAlike(s: State, t: State, where: RoomId, arg: string, rnd: Rand, rnd': Rand)
    requires Alike(s, t)
    ensures AlikeOutcomes(Buy(s, where, arg, rnd), Buy(t, where, arg, rnd'))
  {
    hide ToInventory;
    ToInventoryAlike(s, t, O_MTN_DEW, rnd, rnd');
  }

  lemma ChargeAlike(s: State, t: State, where: RoomId, arg: string, rnd: Rand, rnd': Rand)
    requires Alike(s, t)
    ensures AlikeOutcomes(Charge(s, where, arg, rnd), Charge(t, where, arg, rnd'))
  {
    hide ToInventory, Remove;
    RemoveAlike(s, t, O_BATT_EMPTY);
    ToInventoryAlike(Remove(s, O_BATT_EMPTY), Remove(t, O_BATT_EMPTY), O_BATT_FULL, rnd, rnd');
  }

  lemma FlashAlike(s: State, t: State, where: RoomId, arg: string, rnd: Rand, rnd': Rand)
    requires Alike(s, t)
    ensures AlikeOutcomes(Flash(s, where, arg, rnd), Flash(t, where, arg, rnd'))
  {
    hide ToInventory, Remove;
    RemoveAlike(s, t, O_ROBOT_DEAD);
    ToInventoryAlike(Remove(s, O_ROBOT_DEAD), Remove(t, O_ROBOT_DEAD), O_ROBOT_LIVE, rnd, rnd');
  }

  lemma FixAlike(s: State, t: State, where: RoomId, arg: string, rnd: Rand, rnd': Rand)
    requires Alike(s, t)
    ensures AlikeOutcomes(Fix(s, where, arg, rnd), Fix(t, where, arg, rnd'))
  {
    hide ToInventory, Remove;
    RemoveAlike(s, t, O_GPS_BAD);
    var s', t' := Remove(s, O_GPS_BAD), Remove(t, O_GPS_BAD);
    RemoveAlike(s', t', O_GPS_SPEC);
    ToInventoryAlike(Remove(s', O_GPS_SPEC), Remove(t', O_GPS_SPEC), O_GPS_GOOD, rnd, rnd');
  }

  lemma DropAlike(s: State, t: State, where: RoomId, arg: string, rnd: Rand, rnd': Rand)
    requires Alike(s, t) && Standing(s, where) != NONE
    ensures AlikeOutcomes(Drop(s, where, arg, rnd), Drop(t, where, arg, rnd'))
  {
    hide InsertAt;
    var o, r := Find(s, R_INVENTORY, arg), Standing(s, where);
    if o != NONE {
      InsertAlike(s, t, o, r, RandomX(s, o, r, rnd), RandomY(s, o, r, rnd), RandomX(t, o, r, rnd'), RandomY(t, o, r, rnd'));
    }
  }

  lemma GetAlike(s: State, t: State, where: RoomId, arg: string, rnd: Rand, rnd': Rand)
    requires Alike(s, t) && Standing(s, where) != NONE
    ensures AlikeOutcomes(Get(s, where, arg, rnd), Get(t, where, arg, rnd'))
  {
    hide ToInventory, Remove;
    var src := Standing(s, where);
    RemoveAlike(s, t, O_BATT_CAR);
    var sp, sp' := SpecialGet(s, src, arg), SpecialGet(t, src, arg);
    var o := if sp.o != NONE then sp.o else Find(s, src, arg);
    assert sp.o == sp'.o && Alike(sp.s, sp'.s);
    if o != NONE {
      ToInventoryAlike(sp.s, sp'.s, o, rnd, rnd');
    }
  }

  lemma InstallAlike(s: State, t: State, where: RoomId, arg: string)
    requires Alike(s, t)
    ensures AlikeOutcomes(Install(s, where, arg), Install(t, where, arg))
  {
    hide Remove, Same;
    RemoveAlike(s, t, O_BATT_FULL);
    RemoveAlike(s, t, O_MIMO_CARD);
  }

  lemma DrinkWearAlike(s: State, t: State, where: RoomId, arg: string)
    requires Alike(s, t)
    ensures AlikeOutcomes(Drink(s, where, arg), Drink(t, where, arg))
    ensures AlikeOutcomes(Wear(s, where, arg), Wear(t, where, arg))
  {
    hide Remove, Same;
    RemoveAlike(s, t, O_MTN_DEW);
    RemoveAlike(s, t, O_BUNNYSUIT);
  }

  lemma UseAlike(s: State, t: State, where: RoomId, arg: string, rnd: Rand, rnd': Rand)
    requires Alike(s, t)
    ensures AlikeOutcomes(Use(s, where, arg, rnd), Use(t, where, arg, rnd'))
  {
    hide ToInventory, Remove, InsertAt;
    if where == R_CAR_SITE {
      var s', t' := SwapPhoto(s, where, SWAP_CAR), SwapPhoto(t, where, SWAP_CAR);
      RemoveAlike(s', t', O_CAR_KEY);
      InsertAlike(Remove(s', O_CAR_KEY), Remove(t', O_CAR_KEY), O_BATT_CAR, where, 265, 122, 265, 122);
    }
    RemoveAlike(s, t, O_FISH);
    ToInventoryAlike(Remove(s, O_FISH), Remove(t, O_FISH), O_TUX, rnd, rnd');
  }

  lemma DoGoAlike(s: State, t: State, where: RoomId, arg: string)
    requires Alike(s, t)
    ensures AlikeOutcomes(Do(s, where, arg), Do(t, where, arg))
    ensures AlikeOutcomes(Go(s, where, arg), Go(t, where, arg))
  {
  }

  lemma InventorySighAlike(s: State, t: State, where: RoomId)
    requires Alike(s, t)
    ensures AlikeOutcomes(Inventory(s, where), Inventory(t, where))
    ensures AlikeOutcomes(Sigh(s, where), Sigh(t, where))
  {
  }

  /** What an action leads to does not depend on chance. */
  lemma PerformAlike(s: State, t: State, where: RoomId, deed: Deed, rnd: Rand, rnd': Rand)
    requires Alike(s, t) && PlayerPlaced(s, where)
    ensures AlikeOutcomes(Perform(s, where, deed, rnd), Perform(t, where, deed, rnd'))
  {
    hide Alike;
    assert s.Shaped() && t.Shaped() && s.enter == t.enter by {
      AlikeShaped(s, t);
    }
    match deed
    case GoLeft => MotionsAlike(s, t, where, rnd, rnd');
    case GoEnter => MotionsAlike(s, t, where, rnd, rnd');
    case GoRight => MotionsAlike(s, t, where, rnd, rnd');
    case Typed(verb, arg) =>
      match verb
      case VBuy => BuyAlike(s, t, where, arg, rnd, rnd');
      case VCharge => ChargeAlike(s, t, where, arg, rnd, rnd');
      case VDo => DoGoAlike(s, t, where, arg);
      case VDrink => DrinkWearAlike(s, t, where, arg);
      case VDrop => DropAlike(s, t, where, arg, rnd, rnd');
      case VFix => FixAlike(s, t, where, arg, rnd, rnd');
      case VFlash => FlashAlike(s, t, where, arg, rnd, rnd');
      case VGet => GetAlike(s, t, where, arg, rnd, rnd');
      case VGo => DoGoAlike(s, t, where, arg);
      case VInstall => InstallAlike(s, t, where, arg);
      case VInventory => InventorySighAlike(s, t, where);
      case VSigh => InventorySighAlike(s, t, where);
      case VUse => UseAlike(s, t, where, arg, rnd, rnd');
      case VWear => DrinkWearAlike(s, t, where, arg);
  }

  lemma AlikeShaped(s: State, t: State)
    requires Alike(s, t)
    ensures s.Shaped() && t.Shaped() && s.enter == t.enter
  {
  }

  function DeedsOf(turns: seq<Turn>): (deeds: seq<Deed>)
    ensures |deeds| == |turns|
  {
    seq(|turns|, i requires 0 <= i < |turns| => turns[i].deed)
  }

  /** Nor does what a whole run leads to: only the actions matter. */
  lemma {:induction false} PlayAlike(s: State, t: State, where: RoomRef, turns: seq<Turn>, turns': seq<Turn>)
    requires Alike(s, t) && Invariant(s, where) && Invariant(t, where) && DeedsOf(turns) == DeedsOf(turns')
    ensures var ((u, at), (u', at')) := (Play(s, where, turns), Play(t, where, turns'));
            at == at' && Alike(u, u')
    decreases |turns|
  {
    hide Alike, Invariant, Perform;
    assert |turns| == |turns'|;
    if turns != [] && where != NONE {
      var d, rnd, rnd' := turns[0].deed, turns[0].rnd, turns'[0].rnd;
      assert d == DeedsOf(turns)[0] == DeedsOf(turns')[0] == turns'[0].deed;
      PlacedPlayer(s, where);
      PlacedPlayer(t, where);
      PerformAlike(s, t, where, d, rnd, rnd');
      PerformKeeps(s, where, d, rnd);
      PerformKeeps(t, where, d, rnd');
      var o, o' := Perform(s, where, d, rnd), Perform(t, where, d, rnd');
      assert DeedsOf(turns[1..]) == DeedsOf(turns)[1..] && DeedsOf(turns'[1..]) == DeedsOf(turns')[1..];
      PlayAlike(o.s, o'.s, o.where, turns[1..], turns'[1..]);
    }
  }

  lemma PlacedPlayer(s: State, where: RoomId)
    requires Invariant(s, where)
    ensures s.Shaped() && PlayerPlaced(s, where)
  {
  }

  /** All new games are alike, whatever the images and wherever the objects were placed. */
  lemma {:induction false} BuiltAlike(media: Media, rnds: seq<Rand>, media': Media, rnds': seq<Rand>, k: nat)
    requires media.Valid() && |rnds| == N_OBJECTS && media'.Valid() && |rnds'| == N_OBJECTS && k <= N_OBJECTS
    ensures Alike(Built(media, rnds, k), Built(media', rnds', k))
  {
    hide Alike, Placed;
    if k == 0 {
      BlankAlike(media, media');
    } else {
      BuiltAlike(media, rnds, media', rnds', k - 1);
      PlacedAlike(Built(media, rnds, k - 1), Built(media', rnds', k - 1), k - 1, rnds[k - 1], rnds'[k - 1]);
    }
  }

  lemma BlankAlike(media: Media, media': Media)
    requires media.Valid() && media'.Valid()
    ensures Alike(Blank(media), Blank(media'))
  {
  }

  lemma PlacedAlike(s: State, t: State, o: ObjId, rnd: Rand, rnd': Rand)
    requires Alike(s, t)
    ensures Alike(Placed(s, o, rnd), Placed(t, o, rnd'))
  {
    hide InsertAt;
    var r := StartRoom(o);
    if r != NONE {
      InsertAlike(s, t, o, r, StartX(o), StartY(o), StartX(o), StartY(o));
      InsertAlike(s, t, o, r, RandomX(s, o, r, rnd), RandomY(s, o, r, rnd), RandomX(t, o, r, rnd'), RandomY(t, o, r, rnd'));
    }
  }
}
