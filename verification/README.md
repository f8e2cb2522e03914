# A verified model of an adventure game and a small kernel

The repository holds the code of an operating systems course: an adventure game that
draws on a mode X display (`mp2/`), a line discipline for the game's Tux controller
(`mp2/module/`), and a teaching kernel with its user programs (`mp3/`).  This project
models the parts of it that are hard to get right and proves what they are for.

## What is modelled

**The scrolling display and the game that uses it** (`Photo`, `ModeX`, `Adventure`,
`GameLaws`).
The game draws into a 78,241-byte build buffer that holds a 320x182 window of a larger
picture in four interleaved planes; scrolling redraws only the lines that come into view
and sometimes moves the whole contents with an overlapping copy.  The main result,
`Adventure.Game.GameLoop`, is that nobody can tell: over every run of events, from every
layout, each picture on the monitor and the end of the game are those of a simple game
that renders the current room directly, pixel by pixel, and has no buffer at all.  `GameLaws`
says what that simple game shows and does: every object where it lies, in every picture of every
run; which key moves what; and the speeds of the view.

**The adventure world** (`WorldTables`, `WorldSpec`, `World`, `WorldRuns`, `WorldEffects`,
`Typing`).
`WorldSpec` says what each of the three motions and fourteen typed commands does to a
world of plain values; `World.GameWorld` is the implementation with arrays, flag bits and
intrusive linked lists, proved to do exactly that.  `WorldRuns` proves the invariant of
all runs (item life cycles, locked regions, list integrity) and that no run wins without
every accomplishment.  `WorldEffects` says of every action, by places and names, exactly when it
does what to which objects, and that nothing else changes.

**When the adventure can still be won** (`WorldChance`, `WorldProspects`, `WorldWays`,
`WorldWinnable`, `Victory`).  `WorldChance` proves that `rand ()` decides where objects lie
within a room and which photo a room shows, and never what the player's actions lead to.
`WorldProspects.Winnable` computes from a position which areas open up one after the
other.  `WorldWinnable.WinnableExactly` proves for every position that it is right in
both directions: some list of actions wins, whatever chance does, if and only if `Winnable`
says so, and otherwise none wins even by luck.  One list of actions wins every new game, for
all layouts and all results of `rand ()`; another spoils every new game for good, by leaving
the I-card behind the door that takes the I-card.  `Victory` carries this to the game itself:
one list of keys and typed lines wins every new game, and in any state some win exactly if
`Winnable` says so.

**The event loop's clock** (`TickClock`), including tick times whose microseconds are a
whole second.

**The picture converter and its readers** (`PhotoFile`): a round trip through the file
format.

**The Tux line discipline** (`TuxLdisc`): a ring buffer and an incremental packet framer,
proved to deliver the packets of a one-shot parse of the whole stream, independent of how
the bytes arrive, with the exact condition for dropping none; and self-synchronization of the
framing.

**Streaming grep** (`Grep`): a line search in a fixed buffer, with the exact condition
under which its report is right.

**The kernel's terminals and processes** (`Terminals`, `Processes`): three virtual
terminals over one video memory, refined to three private consoles; process slots, parent
chains, leaves and user page frames, refined to three stacks of processes; and exactly when
the kernel loses track of one.

**Number printing** (`Numerals`): fill, reverse, and the `%x`, `%#x`, `%u` and `%d`
branches of `printf`.

Code that changes things in place is modelled by classes, arrays and loops, proved against
functions on values; properties of runs are proved about those functions.

## Where the code differs from its comments, or from what one would expect

- `mp2/world.c:585-586` speaks of a 3x3 inventory grid; the loops have four rows of three.
- The room table has 64 rooms, the inventory included.
- While the battery is under the hood, any "get" at the car takes it, whatever its argument
  (`mp2/world.c:643-646`).  `WorldRuns.GetTakesOnlyNamed` proves that "get" takes only what it
  names if and only if the player is not there then, or names the battery.
- `mp2/adventure.c:280-281` calls the tick the minimum time between events.  That holds after an
  event if and only if it was handled exactly on its tick (`TickClock.LeastTimeBetweenEvents`);
  after an event handled late the next one can come sooner.
- `mp2/mp2photo.c:44-46` says that pixels are written from right to left; they are written from left
  to right.
- Grep is right for lines of up to 1024 bytes, the whole buffer; longer lines are cut into pieces
  of that length, and a match across a cut is missed.  With an empty pattern it reports nothing.
- Grep compares the byte behind its buffer with a newline without ever having set it
  (`mp3/syscalls/ece391grep.c:13`, `:32`).  If it is a newline, the first full buffer that does not
  end in one is searched as if the file ended there; `Grep.ExactDespiteNewline` proves that the
  result is right for every pattern if and only if, besides, that buffer does not end inside a line.
- `putc` never moves down at the end of a row (`mp3/student-distrib/lib.c:457-459`,
  `Terminals.OnlyNewlinesMoveDown`).
- `execute` enters the new process under the terminal on the monitor, not under the one
  whose process called it (`mp3/student-distrib/syscall.c:337`); `Processes.Kernel.Execute` proves
  that afterwards some stacks of processes fit the tables if and only if the two are the same or
  nothing was started, and `Processes.Kernel.ExecuteAtStartUp` reaches tables that no stacks fit.
  A process is lost then: `Processes.LostExactlyInBackground` proves that over whole runs every
  live process stays on some terminal's chain of parents if and only if no program is ever
  started in the background.
- A program that fails to load leaves the caller with another frame mapped until its next turn;
  `Processes.OwnFrameExactly` says exactly which runs keep the running process's own frame.  The
  loading loop fails only for an inode number above the file system's count
  (`mp3/student-distrib/filesystem.c:90-93`).  The read before it (`syscall.c:207`) then fails too,
  unnoticed, so that the test for the magic number reads the file's name: only a directory entry
  whose name begins with the magic number and whose inode does not exist gets that far.
- A terminal's page is mapped when a switch leaves or shows the terminal, and when the scheduler
  turns to it (`Terminals.MappedExactly`); until then output to it faults
  (`Terminals.Kernel.PutcAt`).  The very first turn of terminal 0
  (`mp3/student-distrib/scheduler.c:60-78`) is no exception: it starts the shell without mapping
  the page.

## Model

| member | source | states |
|---|---|---|
| `Photo.TopmostObjectDecides` | mp2/photo.c:127-164 | a pixel is that of the last object in list order that has a non-transparent pixel there |
| `Photo.PhotoShowsThrough` | mp2/photo.c:121-125 | where no object shows, the pixel is the photo's, and black beyond the photo's edges |
| `Photo.FillHorizBuffer` | mp2/photo.c:105-165 | every byte of the row is the pixel that the one meaning of a scene gives for its coordinate, for every position and object list |
| `Photo.PhotoRow` | mp2/photo.c:121-125 | the first loop leaves the photo's row, clipped to the photo |
| `Photo.OverlayRow` | mp2/photo.c:130-163 | one object, clipped to the row: exactly its non-transparent pixels replace what was there |
| `Photo.FillVertBuffer` | mp2/photo.c:183-243 | every byte of the column is the pixel that the same meaning gives, so rows and columns agree |
| `Photo.PhotoColumn` | mp2/photo.c:199-203 | the first loop leaves the photo's column, clipped to the photo |
| `Photo.OverlayColumn` | mp2/photo.c:208-241 | one object, clipped to the column: exactly its non-transparent pixels replace what was there |
| `ModeX.PlanesSpanOneScreen` | mp2/modex.c:72-75 | all pixels of a window lie in 58,241 consecutive bytes, inside the build buffer whenever the window passes the fit test |
| `ModeX.PlaneMapInjective` | mp2/modex.c:57-66 | no two pixels of a window share a byte of the build buffer |
| `ModeX.PlanesDoNotCollide` | mp2/modex.c:57-66 | storing the planes in reverse order keeps planes shifted by one byte clear of the others |
| `ModeX.OtherPixelsElsewhere` | mp2/modex.c:57-66 | the byte of one window pixel belongs to no other |
| `ModeX.RowStart` | mp2/modex.c:686-690 | plane and address computed for the first pixel of a row are those of that pixel |
| `ModeX.StepRight` | mp2/modex.c:693-699 | the pointer arithmetic of the row loop goes from a pixel's byte to that of its right neighbour |
| `ModeX.OneMoreDrawn` | mp2/modex.c:641-647 | storing one more pixel of a row or column extends the part drawn by that pixel and changes nothing else in the window |
| `ModeX.RotationUndoesPlanes` | mp2/modex.c:522-536 | for every alignment of the window, the source offset for display plane i holds the pixels i, i+4, ... of the window |
| `ModeX.PlaneSourceHolds` | mp2/modex.c:528-536 | the byte of a plane's copy that shows a screen pixel is that of the window pixel |
| `ModeX.PlaneSourceInRange` | mp2/modex.c:528-536 | every plane copied to the screen lies inside the build buffer |
| `ModeX.CentreFits` | mp2/modex.c:441 | repositioning a window in mid-buffer makes it pass the fit test |
| `ModeX.SharedPixelCopied` | mp2/modex.c:480-486 | the copied stretch includes every pixel of the shared rectangle |
| `ModeX.Display.SetModeX` | mp2/modex.c:308-320 | the initial window fits the build buffer |
| `ModeX.Display.SetViewWindow` | mp2/modex.c:403-499 | in all three cases every pixel that the old and new windows share keeps its value, the new window fits, and nothing moves when it already fitted |
| `ModeX.Display.Relocate` | mp2/modex.c:474-498 | after relocation each shared pixel is at its new address, and all addresses were inside the buffer |
| `ModeX.Display.CopyWithin` | mp2/modex.c:493-498 | the overlapping copy, whose direction is chosen by the addresses, behaves as a simultaneous copy |
| `ModeX.Display.ShowScreen` | mp2/modex.c:511-547 | the monitor shows the window pixel by pixel, on the other display page; the page shown before is not touched |
| `ModeX.Display.CopyImage` | mp2/modex.c:1049-1065 | one plane of 14,560 bytes is copied, everything else in video memory stays |
| `ModeX.Display.WritePixel` | mp2/modex.c:641-647 | storing a pixel at its address changes that window pixel and no other |
| `ModeX.Display.DrawVertLine` | mp2/modex.c:616-651 | the window column becomes the scene's, no other window pixel changes, and a column outside the screen is refused without effect |
| `ModeX.Display.DrawHorizLine` | mp2/modex.c:667-703 | the same for a window row |
| `WorldSpec.ChosenSlotIsFirstFree` | mp2/world.c:592-605 | the grid search stops at a free position, and all earlier ones are taken |
| `WorldSpec.FirstFreeSlotIsChosen` | mp2/world.c:592-605 | and no other position is like that |
| `WorldSpec.WithoutKeepsOthers` | mp2/world.c:693-713 | taking an object out of a list keeps it duplicate-free and loses no other object |
| `WorldSpec.WithoutAt` | mp2/world.c:693-713 | the others keep their order |
| `WorldSpec.RemoveKeepsLists` | mp2/world.c:693-713 | removal puts one object in limbo, moves no other, and keeps every room's list exactly the objects located there |
| `WorldSpec.InsertKeepsLists` | mp2/world.c:512-526 | insertion moves one object to the given room and position, and keeps all lists in agreement with locations |
| `WorldSpec.BlankWellFormed` | mp2/world.c:870-939 | the cleared world has its lists in agreement |
| `World.OneFlagSet` | mp2/world.c:677-681 | setting a bit adds exactly that accomplishment |
| `World.UnlinkFirst` | mp2/world.c:693-713 | unlinking the head leaves the chain of the others |
| `World.UnlinkLater` | mp2/world.c:693-713 | redirecting the predecessor's pointer leaves the chain of the others in order |
| `World.ChainFrame` | mp2/world.c:512-526 | a chain of pointers does not notice changes to objects that are not on it |
| `World.RemoveMirrored` | mp2/world.c:693-713 | after unlinking, the pointer records represent the world without the object |
| `World.InsertMirrored` | mp2/world.c:512-526 | after linking at the front, the pointer records represent the world with the object there |
| `World.GameWorld.BuildWorld` | mp2/world.c:864-982 | the arrays and pointers represent the world in which each object was placed in turn |
| `World.GameWorld.PlaceObjects` | mp2/world.c:912-950 | every object ends up where the table or chance puts it |
| `World.GameWorld.PlaceObject` | mp2/world.c:941-949 | fixed position, random position or limbo |
| `World.GameWorld.RemoveObject` | mp2/world.c:693-713 | the pointer manipulation removes exactly that object from its room's list |
| `World.GameWorld.InsertObjectAt` | mp2/world.c:512-526 | the object leaves its old list and heads the new room's |
| `World.GameWorld.RandomPosition` | mp2/world.c:540-568 | the random position is in the bottom quarter if the image fits there, else anywhere, else at the top |
| `World.GameWorld.InsertObject` | mp2/world.c:540-568 | insertion at such a position, for all values of rand () |
| `World.GameWorld.Occupied` | mp2/world.c:594-600 | true exactly when some carried object is at that grid position |
| `World.GameWorld.FindGridPosition` | mp2/world.c:592-605 | the loops find the first free of the twelve grid positions |
| `World.GameWorld.MoveObjectToInventory` | mp2/world.c:581-609 | the object is carried, at the first free position, or at a random one if there is none |
| `World.GameWorld.DoPhotoSwap` | mp2/world.c:458-467 | the room's photo and the spare one change places |
| `World.GameWorld.FindInRoom` | mp2/world.c:480-496 | the first object in list order whose name matches, or none |
| `World.GameWorld.PlayerFlagIsSet` | mp2/world.c:661-665 | the bit test answers whether the accomplishment was recorded |
| `World.GameWorld.PlayerSetFlag` | mp2/world.c:677-681 | that accomplishment is recorded and no other changes |
| `World.GameWorld.Arriving` | mp2/world.c:1085-1094 | arrival by an edge, with the random photo swap at the Boneyard bridge |
| `World.GameWorld.TryToMoveLeft` | mp2/world.c:1039-1066 | the motion on pointers does to the world what the step of the simple world says |
| `World.GameWorld.TryToMoveRight` | mp2/world.c:1174-1201 | the same |
| `World.GameWorld.TryToEnter` | mp2/world.c:1077-1163 | an edge, or one of four locked doors and its key, or nothing |
| `World.GameWorld.TypedCmdBuy` | mp2/world.c:1215-1259 | pointers and flags end up as in the simple world: Dew at the vending machine, yogurt at Cocomero |
| `World.GameWorld.TypedCmdCharge` | mp2/world.c:1271-1304 | the same: an empty battery at the MRI becomes a full one |
| `World.GameWorld.TypedCmdDo` | mp2/world.c:1316-1349 | the same: the command that wins, with the book and the MP2 carried and Tux in the lab |
| `World.GameWorld.TypedCmdDrink` | mp2/world.c:1362-1384 | the same: the Dew goes into limbo |
| `World.GameWorld.TypedCmdDrop` | mp2/world.c:1398-1433 | the same: a carried object goes to the room where the player stands, also from the inventory view, as `WorldEffects.DropDoes` says |
| `World.GameWorld.TypedCmdFix` | mp2/world.c:1446-1483 | the same: GPS and spec sheet become the repaired GPS |
| `World.GameWorld.TypedCmdFlash` | mp2/world.c:1496-1529 | the same: the dead robot becomes the live one |
| `World.GameWorld.ObjSpecialGet` | mp2/world.c:623-650 | the library's books, and the battery under the hood that any "get" at the car takes |
| `World.GameWorld.TypedCmdGet` | mp2/world.c:1542-1576 | the same: an object at hand is carried, Tux only once lured |
| `World.GameWorld.TypedCmdGo` | mp2/world.c:1589-1670 | the same: journeys by car |
| `World.GameWorld.TypedCmdInstall` | mp2/world.c:1683-1737 | the same: the battery repairs the car, the transmitter card opens the cockpit's edge |
| `World.GameWorld.TypedCmdInventory` | mp2/world.c:1757-1774 | the same: into the inventory view and back to the same room |
| `World.GameWorld.SetEnter` | mp2/world.c:1757-1774 | one room's edge is redirected and nothing else changes |
| `World.GameWorld.TypedCmdSigh` | mp2/world.c:1789-1803 | the same: lunch at Za's |
| `World.GameWorld.TypedCmdUse` | mp2/world.c:1816-1879 | the same: the key opens the car, the fish lures Tux |
| `World.GameWorld.TypedCmdWear` | mp2/world.c:1892-1914 | the same: the bunny suit is put on and gone |
| `World.GameWorld.CarryOut` | mp2/adventure.c:388-456 | whatever the action, the pointer world ends up as the simple world says, for every list and layout |
| `WorldRuns.EdgesStayInRegions` | mp2/world.c:224-362 | no edge of the room table leads into a locked or remote region from outside it |
| `WorldRuns.MoveLeftKeeps` | mp2/world.c:1039-1066 | the motion keeps the invariant: item cycles, region gates, fixed edges, list integrity |
| `WorldRuns.MoveRightKeeps` | mp2/world.c:1174-1201 | the motion keeps the invariant |
| `WorldRuns.EnterKeeps` | mp2/world.c:1077-1163 | doors and edges keep the invariant; past the cockpit the card is installed |
| `WorldRuns.BuyKeeps` | mp2/world.c:1215-1259 | keeps the invariant |
| `WorldRuns.ChargeKeeps` | mp2/world.c:1271-1304 | keeps the invariant: one battery, now full, and the robot exists |
| `WorldRuns.DoKeeps` | mp2/world.c:1316-1349 | a game that ends has every accomplishment |
| `WorldRuns.DrinkKeeps` | mp2/world.c:1362-1384 | keeps the invariant |
| `WorldRuns.DropKeeps` | mp2/world.c:1398-1433 | keeps the invariant, also from the inventory view |
| `WorldRuns.FixKeeps` | mp2/world.c:1446-1483 | keeps the invariant: exactly one GPS form, and the suit was worn |
| `WorldRuns.FlashKeeps` | mp2/world.c:1496-1529 | keeps the invariant: exactly one robot form |
| `WorldRuns.GetKeeps` | mp2/world.c:1542-1576 | keeps the invariant: Tux is not carried before he is lured, the course book not taken before lunch |
| `WorldRuns.TakeBatteryKeeps` | mp2/world.c:643-646 | the battery under the hood becomes the empty battery: still exactly one battery form |
| `WorldRuns.GetTakesOnlyNamed` | mp2/world.c:623-650 | "get" moves only objects of the name given, in every room and whatever the name, if and only if the player is not at the car with the battery under the hood, or names the battery |
| `WorldRuns.InstallBatteryKeeps` | mp2/world.c:1688-1713 | the last battery form goes exactly when the car is fixed, and the car's photo swaps back |
| `WorldRuns.InstallCardKeeps` | mp2/world.c:1715-1733 | the transmitter card goes exactly when the cockpit's edge opens |
| `WorldRuns.InstallKeeps` | mp2/world.c:1683-1737 | so whatever the argument, the invariant is kept |
| `WorldRuns.GoKeeps` | mp2/world.c:1589-1670 | journeys by car keep the invariant |
| `WorldRuns.InventoryKeeps` | mp2/world.c:1757-1774 | the inventory detour keeps the invariant |
| `WorldRuns.SighKeeps` | mp2/world.c:1789-1803 | keeps the invariant |
| `WorldRuns.UseCarKeeps` | mp2/world.c:1824-1856 | the key goes exactly when the car opens, one battery form appears and the photo swaps |
| `WorldRuns.UseFishKeeps` | mp2/world.c:1858-1875 | the fish goes exactly when Tux is lured |
| `WorldRuns.WearKeeps` | mp2/world.c:1892-1914 | the suit goes exactly when the flag is set |
| `WorldRuns.PerformKeeps` | mp2/world.c:1039-1914 | every motion and every typed command keeps the invariant or ends a game in which everything is accomplished |
| `WorldRuns.BuiltWorld` | mp2/world.c:912-950 | each object starts exactly in the room of the object table |
| `WorldRuns.NewGame` | mp2/world.c:864-998 | the built world satisfies the invariant, for all images and random placements |
| `WorldRuns.Play` | mp2/adventure.c:319-349 | the invariant holds after every run, of any length |
| `WorldRuns.WinningTakesEverything` | mp2/world.c:1316-1349 | no run from any layout wins without all five flags, the live robot, the repaired GPS and the installed card |
| `WorldRuns.OnlyRedrawsChangeTheView` | mp2/adventure.c:458-467 | an action that asks for no redraw leaves objects, lists, photos and the player's room unchanged; a redraw in place keeps the room and every photo |
| `WorldRuns.TakenSlotsAreOccupied` | mp2/world.c:592-605 | if all grid positions are taken, as many distinct positions are occupied by carried objects |
| `WorldRuns.GridHasRoom` | mp2/world.c:581-609 | with fewer than twelve objects carried, the object gets a grid position no carried object occupies |
| `WorldEffects.DropDoes` | mp2/world.c:1398-1433 | the first carried object of that name goes to the head of the list of the room where the player stands, also from the inventory view, and nothing else changes; if there is none, nothing happens |
| `WorldEffects.GetDoes` | mp2/world.c:1542-1576 | which object is picked up in every case (the right book at the reserve desk, the battery under the hood, the first of that name but Tux only once lured), and that nothing else changes |
| `WorldEffects.MotionsLead` | mp2/world.c:1039-1094 | left, right and enter lead to the neighbour on that side; nothing changes but, for every second draw, the photo of the bridge that is entered |
| `WorldEffects.DoorsOpen` | mp2/world.c:1096-1163 | without an edge, enter opens each of the four doors exactly with its own key, and leads nowhere else |
| `WorldEffects.InventoryDoes` | mp2/world.c:1757-1774 | the room is remembered and the inventory shown, or the way leads back |
| `WorldEffects.InventoryAndBack` | mp2/world.c:1757-1774 | the inventory and back is the same room and world |
| `WorldEffects.GoDoes` | mp2/world.c:1589-1670 | exactly when the car goes to each of its three places |
| `WorldEffects.BuyDoes` | mp2/world.c:1215-1259 | exactly when dew is got and when lunch is had, and that nothing else changes |
| `WorldEffects.DrinkDoes` | mp2/world.c:1362-1384 | the dew at hand is gone, and nothing else changes |
| `WorldEffects.SighDoes` | mp2/world.c:1789-1803 | lunch is had at Za's, and nothing else changes |
| `WorldEffects.ChargeDoes` | mp2/world.c:1271-1304 | exactly when the empty battery becomes the full one, in hand, and that nothing else changes |
| `WorldEffects.FlashDoes` | mp2/world.c:1496-1529 | exactly when the dead robot becomes the live one, in hand, and that nothing else changes |
| `WorldEffects.FixDoes` | mp2/world.c:1446-1483 | exactly when broken GPS and sheet become the repaired GPS, in hand, and that nothing else changes |
| `WorldEffects.WearDoes` | mp2/world.c:1892-1914 | the suit at hand is put on and gone, and nothing else changes |
| `WorldEffects.DoDoes` | mp2/world.c:1316-1349 | exactly when the game is won: in the lab, with book and MP2 carried and Tux there |
| `WorldEffects.LureDoes` | mp2/world.c:1858-1875 | exactly when the fish goes and Tux comes along, and that nothing else changes |
| `WorldEffects.OpenCarDoes` | mp2/world.c:1824-1856 | exactly when the key opens the hood: key gone, battery at its place under it, photos exchanged, and nothing else |
| `WorldEffects.InstallBatteryDoes` | mp2/world.c:1691-1713 | exactly when the battery repairs the car: battery gone, photos exchanged back, and nothing else |
| `WorldEffects.InstallCardDoes` | mp2/world.c:1715-1733 | exactly when the card opens the cockpit's edge, and nothing else changes |
| `WorldEffects.CaseDoesNotMatter` | mp2/world.c:480-496 | names are compared letter by letter in whatever case |
| `WorldEffects.WordsMean` | mp2/world.c:384-405 | which objects each word can mean |
| `WorldEffects.PlacedInGrid` | mp2/world.c:592-605 | what is picked up gets the first of the 3 by 4 grid places where no carried object is |
| `WorldEffects.ChancePlaces` | mp2/world.c:540-568 | an object placed at random can be exactly at the positions in the photo's bottom quarter, or in the photo, or at its edge, according to its size |
| `WorldEffects.ThingsStart` | mp2/world.c:864-982 | in a new world every object is in its room, at its fixed position or where chance may put it |
| `WorldProspects.SpreadLeast` | mp2/world.c:224-404 | the areas within reach are contained in every set of areas that is closed under opening |
| `WorldProspects.SpreadClosed` | mp2/world.c:224-404 | and are themselves such a set |
| `WorldProspects.PerformHopeless` | mp2/world.c:1039-1914 | no action opens an area, or brings an item or prize, that the areas within reach did not already promise |
| `WorldProspects.MovesHopeless` | mp2/world.c:1039-1066 | edges lead only to areas that are open |
| `WorldProspects.EnterHopeless` | mp2/world.c:1077-1163 | a locked door opens only with what was within reach |
| `WorldProspects.GetHopeless` | mp2/world.c:1542-1576 | picking up brings nothing that was out of reach |
| `WorldProspects.DropHopeless` | mp2/world.c:1398-1433 | dropping brings nothing that was out of reach |
| `WorldProspects.ChargeHopeless` | mp2/world.c:1271-1304 | a full battery comes only from an empty one, in the Beckman Institute |
| `WorldProspects.FlashHopeless` | mp2/world.c:1496-1529 | a live robot comes only from a dead one, in the 395 lab |
| `WorldProspects.FixHopeless` | mp2/world.c:1446-1483 | a repaired GPS comes only from the broken one and the spec sheet, in the clean room |
| `WorldProspects.InstallHopeless` | mp2/world.c:1683-1737 | car and plane start only with what was within reach |
| `WorldProspects.UseHopeless` | mp2/world.c:1816-1879 | opening the car and luring Tux promise nothing new |
| `WorldProspects.GoHopeless` | mp2/world.c:1589-1670 | the car goes only where the way was open |
| `WorldProspects.DoHopeless` | mp2/world.c:1316-1349 | the winning command needs all the prizes |
| `WorldProspects.StillNotWinnable` | mp2/world.c:1316-1349 | a position no better than one that is not winnable is not winnable |
| `WorldProspects.NotWinnableNeverWon` | mp2/world.c:1316-1349 | from a position that is not winnable no run of any length wins |
| `WorldChance.PerformAlike` | mp2/world.c:1039-1914 | in two worlds that differ only in photos and in positions within rooms, an action leads to the same room and again to such worlds, for all values of rand () |
| `WorldChance.PlayAlike` | mp2/adventure.c:319-349 | the same for runs of any length |
| `WorldChance.BuiltAlike` | mp2/world.c:864-982 | all new worlds differ only so, whatever the images and the random placements |
| `WorldWays.HomeStep` | mp2/world.c:224-362 | from every room an edge leads nearer to its area's hub without leaving the area |
| `WorldWays.OutStep` | mp2/world.c:224-362 | every room has an edge from a room of its area nearer to the hub |
| `WorldWinnable.WalkHome` | mp2/world.c:224-362 | from every room of an area the player can walk to the area's hub without changing anything |
| `WorldWinnable.WalkOut` | mp2/world.c:224-362 | and from the hub to every room |
| `WorldWinnable.TakeSomething` | mp2/world.c:1542-1576 | "get" with an object's name takes some object of that name and worsens no prospect |
| `WorldWinnable.EmptyRoom` | mp2/world.c:1542-1576 | by repeated "get" everything in a room is taken, but for an unlured Tux |
| `WorldWinnable.Sweep` | mp2/world.c:1542-1576 | the player can clear out a whole area |
| `WorldWinnable.RepairCar` | mp2/world.c:1683-1713 | if the areas cleared out promise it, the car can be repaired |
| `WorldWinnable.MakeGps` | mp2/world.c:1446-1483 | if they promise it, the repaired GPS can be had |
| `WorldWinnable.MakeRobot` | mp2/world.c:1496-1529 | if they promise it, the live robot can be had |
| `WorldWinnable.Visit` | mp2/world.c:1077-1163 | an area that opens can be entered, cleared out and left again |
| `WorldWinnable.Finish` | mp2/world.c:1316-1349 | with the prizes within reach the game can be finished |
| `WorldWinnable.WinFromHome` | mp2/world.c:1316-1349 | all areas within reach can be visited one after the other, and then the game be won |
| `WorldWinnable.SetOut` | mp2/world.c:1077-1163 | from any position the player can get home without losing a prospect, also out of rooms that cannot be entered again |
| `WorldWinnable.WayToWin` | mp2/world.c:1316-1349 | from every winnable position some run wins |
| `WorldWinnable.OneRunTellsAll` | mp2/world.c:1039-1914 | if some run of a list of actions wins, the list wins in every alike world and for all values of rand (); if one does not, it never does |
| `WorldWinnable.WinnableExactly` | mp2/world.c:1316-1349 | for every position that satisfies the invariant: some list of actions wins whatever chance does, and likewise some run wins, if and only if the areas within reach hold the prizes |
| `WorldWinnable.NewWorldsExist` | mp2/world.c:864-998 | there are worlds in which a game may start, so the following two say something |
| `WorldWinnable.EveryGameCanBeWon` | mp2/world.c:864-998 | one list of actions wins every new game, for all images, all placements and all later values of rand () |
| `WorldWinnable.EveryGameCanBeSpoilt` | mp2/world.c:1118-1126 | one list of actions leads in every new game, whatever chance does, to a position from which no run wins |
| `Typing.SkipSpaces` | mp2/adventure.c:371-385 | what is skipped is all spaces, and the rest starts with none |
| `Typing.WordLength` | mp2/adventure.c:383 | the word has no space and ends at one or at the end |
| `Typing.MeasureWord` | mp2/adventure.c:383 | the loop stops at the first space or at the end |
| `Typing.StripSpaces` | mp2/adventure.c:371-385 | leading spaces are skipped |
| `Typing.LookUp` | mp2/adventure.c:387-394 | the loop stops at the first entry whose verb starts with the typed word, if that is long enough |
| `Typing.ParseTyped` | mp2/adventure.c:371-397 | a typed line becomes the verb and argument that the specification gives, or nothing; what they are is said by `Typing.ParsesExactly` |
| `Typing.AtMostOneEntryMatches` | mp2/adventure.c:114-131 | no typed word matches two entries, so the order of the list does not matter |
| `Typing.FirstMatchFinds` | mp2/adventure.c:387-394 | the entry found matches and none before it does |
| `Typing.EveryEntryCanBeTyped` | mp2/adventure.c:114-131 | every entry can be issued, even by its shortest abbreviation |
| `Typing.ParsesExactly` | mp2/adventure.c:371-397 | a line means a command with an argument if and only if it is, after any spaces, one of that command's words, in whatever case and at least as much of it as the list demands, and then spaces and that argument, or nothing |
| `Typing.NothingExactly` | mp2/adventure.c:375 | a line means nothing at all if and only if it is blank |
| `Adventure.After` | mp2/adventure.c:458-467 | after any action the simple game goes on with its view inside the photo, or everything is accomplished |
| `Adventure.Next` | mp2/adventure.c:319-349 | the same for any event |
| `Adventure.FirstView` | mp2/adventure.c:486-494 | the first view lies inside the first room's photo |
| `Adventure.RowsStayInPhoto` | mp2/photo.c:121-125 | what is read to draw all rows of a room just entered lies in its photo if and only if the photo is at least 182 pixels high |
| `Adventure.PansStayInPhoto` | mp2/adventure.c:507-620 | from a room just entered no sequence of arrow keys leads the view off the photo's upper and left edges if and only if the photo is at least 320x182 |
| `Adventure.ReadDeed` | mp2/adventure.c:319-344 | the event's command becomes the world action it stands for |
| `Adventure.Game.constructor` | mp2/adventure.c:780-796 | the game starts as the simple game does |
| `Adventure.Game.CurrentScene` | mp2/photo.c:118-132 | following the room's pointer chain meets exactly the room's objects, in list order, each at its position; where they are seen is said by `GameLaws.ObjectsAppear` |
| `Adventure.Game.RedrawRoom` | mp2/adventure.c:631-640 | the whole window agrees with the direct rendering |
| `Adventure.Game.MovePhotoDown` | mp2/adventure.c:507-525 | the view moves up by the speed, or to the edge, and redrawing the exposed rows restores agreement with the direct rendering |
| `Adventure.Game.MovePhotoLeft` | mp2/adventure.c:538-557 | the same for columns exposed at the right |
| `Adventure.Game.MovePhotoRight` | mp2/adventure.c:570-588 | the same for columns exposed at the left |
| `Adventure.Game.MovePhotoUp` | mp2/adventure.c:601-620 | the same for rows exposed at the bottom |
| `Adventure.Game.Act` | mp2/adventure.c:458-467 | after an action the screen still agrees with the simple game, or a new room is to be drawn |
| `Adventure.Game.Carry` | mp2/adventure.c:387-456 | the action does to world, room and speeds what the simple game says |
| `Adventure.Game.AdjustPanning` | mp2/adventure.c:410-433 | board and jetpack set the panning speed after "get" and "drop" as in the simple game, whose speeds `GameLaws.SpeedsThroughout` gives |
| `Adventure.Game.Pan` | mp2/adventure.c:320-324 | each arrow key pans as in the simple game |
| `Adventure.Game.HandleEvent` | mp2/adventure.c:319-349 | one event of the real game is one event of the simple game |
| `Adventure.Game.EnterRoom` | mp2/adventure.c:235-250 | a newly entered room is shown from its upper left corner |
| `Adventure.Game.Show` | mp2/adventure.c:276 | the picture on the monitor is the direct rendering of the current room at the view's position |
| `Adventure.Game.GameLoop` | mp2/adventure.c:201-351 | over every run of events from every layout whose photos fill the screen, each picture shown and the way the game ends are those of the simple game without a build buffer |
| `Adventure.MonitorShows` | mp2/modex.c:511-547 | a window that agrees with the scene makes the monitor show its rendering |
| `GameLaws.ObjectsAppear` | mp2/photo.c:127-164 | an object's non-transparent pixel is seen as far from the object's position as in its image, unless a later object covers it |
| `GameLaws.PhotoAppears` | mp2/photo.c:121-125 | where no object is seen, the room's present photo is |
| `GameLaws.PictureOf` | mp2/adventure.c:201-351 | the n-th picture of a run is the player's room from the view's position after n events |
| `GameLaws.PicturesShowObjects` | mp2/adventure.c:201-351 | in every picture of every run what is in sight is seen where it lies |
| `GameLaws.PicturesShowPhoto` | mp2/adventure.c:201-351 | and the photo where nothing is |
| `GameLaws.OnlyHandsMove` | mp2/world.c:1039-1914 | no action but "get" and "drop" moves board or jetpack |
| `GameLaws.SpeedsThroughout` | mp2/adventure.c:410-431 | over every run the view moves by six pixels sideways exactly while the board is carried, by six up and down exactly while the jetpack is, and by two otherwise |
| `GameLaws.SpeedsAtFirst` | mp2/adventure.c:486-494 | the same holds of a new game |
| `GameLaws.ArrowsPan` | mp2/adventure.c:507-620 | each arrow key moves the view that way, at the present speed or up to the photo's edge, and changes nothing else |
| `GameLaws.KeysAct` | mp2/adventure.c:319-344 | each other key is the motion it stands for; lines that are no command do nothing |
| `GameLaws.RoomsSeenFromCorner` | mp2/adventure.c:235-250 | a room that is entered is seen from its upper left corner; only actions that ask for it reset the view |
| `GameLaws.LinesAct` | mp2/adventure.c:371-397 | a typed line is the action that it says, and no other |
| `Victory.MeaninglessAlike` | mp2/world.c:1215-1914 | for every command all arguments that are none of its words have the same effect |
| `Victory.LineMeans` | mp2/input.c:137-157 | for every command and argument there is a line of at most twenty typeable characters with that effect |
| `Victory.GameWonInWorld` | mp2/adventure.c:319-349 | a game is won exactly if the actions its events stand for win in its world |
| `Victory.GameWinnableExactly` | mp2/adventure.c:201-351 | in any state of the game some keys and typed lines win, whatever chance does, if and only if the areas within reach hold the prizes; otherwise no events win at all |
| `Victory.EveryGameCanBeWonByTyping` | mp2/adventure.c:201-351 | one list of keys and typed lines of at most twenty letters, digits and spaces wins every new game, for all images, placements and later values of rand () |
| `Victory.WonMeansAccomplished` | mp2/adventure.c:346-348 | a game that ends as won has everything accomplished |
| `TickClock.IsAfterExact` | mp2/adventure.c:721-729 | of all times with at most a whole second of microseconds, the comparison is wrong exactly for a whole second against the start of the next |
| `TickClock.ReadingsCompareExactly` | mp2/adventure.c:721-729 | with a normalised left side, as in the loop, it is always right |
| `TickClock.OneEventPerSlot` | mp2/adventure.c:283-304 | there is at most one event in a tick's slot, so n + 1 events take more than n - 1 ticks |
| `TickClock.EverySlotRead` | mp2/adventure.c:283-304 | if the clock does not go back, every slot in which it is read has an event |
| `TickClock.LeastTimeBetweenEvents` | mp2/adventure.c:279-304 | after an event the next one is at least a tick away, whatever the clock reads, if and only if the event was handled exactly on its tick |
| `TickClock.Clock.constructor` | mp2/adventure.c:214-222 | the first tick is 50,000 microseconds after the start |
| `TickClock.Clock.WaitForTick` | mp2/adventure.c:283-291 | the loop waits for exactly the first reading at or after the tick |
| `TickClock.Clock.CatchUp` | mp2/adventure.c:299-304 | the loop ends, and the new tick is the first multiple of the tick length after the reading: now < tick <= now + 50,000 |
| `TickClock.Clock.Run` | mp2/adventure.c:226-304 | over any clock readings, events happen at the first reading in each slot |
| `PhotoFile.RowWidth` | mp2/mp2photo.c:68-72 | rows are padded to the next multiple of four bytes |
| `PhotoFile.ReducedCode` | mp2/photo.c:372-391 | reading undoes writing up to the top two bits of each colour, and the colour 0x3C of object images becomes transparent |
| `PhotoFile.NumberSplits` | mp2/photo.c:376-391 | pixel numbers determine column and row |
| `PhotoFile.FlippedTwice` | mp2/photo.c:367-371 | turning the rows upside down is its own inverse, so every pixel of the image is filled |
| `PhotoFile.WriteOutputFile` | mp2/mp2photo.c:133-180 | the file is the header and every pixel's code in order, for any row padding |
| `PhotoFile.ReadRow` | mp2/photo.c:376-391 | a row of the image is filled from the file, or the file ends too early |
| `PhotoFile.ReadImage` | mp2/photo.c:333-488 | an image results exactly if header and pixels are complete and within the limits; it is the file's picture upside down |
| `PhotoFile.Convert` | mp2/mp2photo.c:133-180 | writing and reading back gives the picture the right way up, each pixel the top two bits of its colours, for all sizes within the reader's limits and only those |
| `TuxLdisc.ScanInPieces` | mp2/module/tuxctl-ld.c:300-317 | scanning in two pieces, with the leftovers of the first before the second, finds the packets of the whole |
| `TuxLdisc.OccurrencesInRange` | mp2/module/tuxctl-ld.c:302-306 | the positions listed are exactly those where the framing pattern occurs |
| `TuxLdisc.FindsEveryOccurrence` | mp2/module/tuxctl-ld.c:302-312 | the greedy scan finds exactly the packets at all occurrences of the pattern |
| `TuxLdisc.NoOverlap` | mp2/module/tuxctl-ld.c:302-312 | occurrences cannot overlap, so skipping three bytes misses none |
| `TuxLdisc.GarbageLosesNothing` | mp2/module/tuxctl-ld.c:302-312 | a well-framed packet is delivered whatever came before it |
| `TuxLdisc.Ldisc.Full` | mp2/module/tuxctl-ld.c:106 | the ring is full exactly at 63 bytes |
| `TuxLdisc.Ldisc.constructor` | mp2/module/tuxctl-ld.c:110-135 | the ring starts empty, with nothing saved |
| `TuxLdisc.Ldisc.Put` | mp2/module/tuxctl-ld.c:173-174 | a byte joins the end of the queue |
| `TuxLdisc.Ldisc.Take` | mp2/module/tuxctl-ld.c:235-236 | the oldest byte leaves the queue |
| `TuxLdisc.Ldisc.Fill` | mp2/module/tuxctl-ld.c:172-176 | as many bytes as there is room for join the queue in order |
| `TuxLdisc.Ldisc.Store` | mp2/module/tuxctl-ld.c:168-179 | and are accounted for as accepted |
| `TuxLdisc.Ldisc.Get` | mp2/module/tuxctl-ld.c:225-242 | the oldest bytes, at most n, in order; the rest stays queued |
| `TuxLdisc.Ldisc.LoadWindow` | mp2/module/tuxctl-ld.c:295-298 | the window holds the saved bytes followed by the oldest queued ones |
| `TuxLdisc.Ldisc.ScanWindow` | mp2/module/tuxctl-ld.c:300-312 | the loop delivers the packets of the one-shot parser and stops before its rest |
| `TuxLdisc.Ldisc.KeepLeftovers` | mp2/module/tuxctl-ld.c:314-317 | at most two bytes are kept |
| `TuxLdisc.Ldisc.FrameWindow` | mp2/module/tuxctl-ld.c:286-318 | one callback does to packets and leftovers what the one-shot parser does to the window |
| `TuxLdisc.Ldisc.DataCallback` | mp2/module/tuxctl-ld.c:286-318 | after it, packets delivered plus the parse of saved and queued bytes are still the parse of all accepted bytes |
| `TuxLdisc.SmallChunksFit` | mp2/module/tuxctl-ld.c:160-184 | chunks of at most ten bytes always fit and leave no backlog |
| `TuxLdisc.Ldisc.ReceiveBuf` | mp2/module/tuxctl-ld.c:160-184 | the same after any chunk; leftovers and backlog are those the specification gives, and what does not fit is dropped |
| `TuxLdisc.Ldisc.Session` | mp2/module/tuxctl-ld.c:160-184 | delivery does not depend on how the bytes are cut into chunks; no byte is dropped if and only if every chunk fits in the room that the backlog of the chunks before it leaves in the ring; with chunks of at most ten bytes exactly the packets of the whole stream are delivered |
| `Grep.LineLength` | mp3/syscalls/ece391grep.c:30-32 | a line ends at the first newline or at the end |
| `Grep.FittingLinesReported` | mp3/syscalls/ece391grep.c:20-60 | if no line is longer than 1024 bytes, exactly the lines that contain the pattern are reported, once each and in order |
| `Grep.ReportedIsListed` | mp3/syscalls/ece391grep.c:40-51 | a line is reported exactly if it is in the file and contains the pattern |
| `Grep.ExactForLinesThatFit` | mp3/syscalls/ece391grep.c:20-60 | the search is right for every non-empty pattern if and only if no line is longer than 1024 bytes |
| `Grep.EmptyPatternFindsNothing` | mp3/syscalls/ece391grep.c:42-51 | with an empty pattern nothing is reported, although every line contains it |
| `Grep.NoLineCut` | mp3/syscalls/ece391grep.c:28-57 | if no buffer load ends inside a line, a newline behind the buffer makes no difference |
| `Grep.ExactDespiteNewline` | mp3/syscalls/ece391grep.c:13-57 | with a newline behind the buffer the search is right for every non-empty pattern if and only if, besides, the first full buffer that does not end in a newline does not end inside a line |
| `Grep.Read` | mp3/syscalls/ece391grep.c:22 | an ideal read: short only at the end of the file |
| `Grep.MoveToFront` | mp3/syscalls/ece391support.c:14-17 | copying the unfinished line over itself keeps its bytes |
| `Grep.PrefixEqual` | mp3/syscalls/ece391support.c:35-46 | zero exactly if the pattern is a prefix of the string |
| `Grep.FindNewline` | mp3/syscalls/ece391grep.c:30-32 | the first newline in the buffer, or its end |
| `Grep.SearchLine` | mp3/syscalls/ece391grep.c:40-51 | found exactly if the line contains the non-empty pattern |
| `Grep.CompareAt` | mp3/syscalls/ece391grep.c:43-45 | one position matches exactly if the non-empty pattern occurs there |
| `Grep.StringAt` | mp3/syscalls/ece391grep.c:47 | the bytes printed are the line up to the NUL |
| `Grep.ReportLine` | mp3/syscalls/ece391grep.c:40-51 | the line is printed once exactly if it matches |
| `Grep.SearchBuffer` | mp3/syscalls/ece391grep.c:28-57 | one buffer load reports the lines it completes; what is left to report is that of the unfinished line and the rest of the file; with a newline behind a full buffer the unfinished line is searched as if the file ended there, and that newline is overwritten |
| `Grep.ReadAndSearch` | mp3/syscalls/ece391grep.c:21-60 | one pass reports its part of the specified report, with or without a newline behind the buffer, and either reads on or is at the end |
| `Grep.DoOneFile` | mp3/syscalls/ece391grep.c:20-60 | for any file without NUL bytes, and whatever the buffer holds at first, the loop ends and prints exactly the report specified for the byte behind the buffer |
| `Terminals.Step` | mp3/student-distrib/scheduler.c:170-200 | no operation makes a console ill-formed |
| `Terminals.TerminalsArePrivate` | mp3/student-distrib/scheduler.c:170-291 | after any interleaving a terminal holds what its own writes alone make of it |
| `Terminals.OnlyNewlinesMoveDown` | mp3/student-distrib/lib.c:437-463 | the cursor changes its row only at a newline above the last row; at the end of a row it goes back to the row's beginning |
| `Terminals.MappedExactly` | mp3/student-distrib/scheduler.c:170-291 | over any run a terminal's page is mapped exactly if it was so at first, its turn began, or a switch left or showed it |
| `Terminals.LooksAndTurns` | mp3/student-distrib/scheduler.c:116-200 | over any run the monitor shows the terminal last switched to, and the terminal runs whose turn began last |
| `Terminals.WritesGoTo` | mp3/student-distrib/lib.c:437-497 | putc writes to the running terminal, putc_user and keys to the visible one, and to no other |
| `Terminals.TextAppears` | mp3/student-distrib/lib.c:455-459 | text printed on a row appears there from the cursor on, byte by byte with its colour; the cursor follows and goes back at the row's end; nothing else changes |
| `Terminals.NewlineMoves` | mp3/student-distrib/lib.c:444-453 | a newline writes nothing and leads to the beginning of the next row, or of the last |
| `Terminals.KeyIsKept` | mp3/student-distrib/scheduler.c:211 | a stored key is at its place in the key buffer, and nothing else changes |
| `Terminals.Kernel.constructor` | mp3/student-distrib/scheduler.c:154-168 | terminal 0 is visible and no page is mapped yet |
| `Terminals.Kernel.MonitorShowsVisible` | mp3/student-distrib/scheduler.c:202-238 | video memory holds the screen of the visible terminal |
| `Terminals.Kernel.CopyScreen` | mp3/student-distrib/scheduler.c:219 | 4000 bytes are copied between two pages, nothing else changes |
| `Terminals.Kernel.TerminalSaveState` | mp3/student-distrib/scheduler.c:202-220 | screen and typed keys of the visible terminal go to its own page and record |
| `Terminals.Kernel.TerminalRestoreState` | mp3/student-distrib/scheduler.c:222-238 | those of the new terminal come back |
| `Terminals.Kernel.TerminalSwitch` | mp3/student-distrib/scheduler.c:170-200 | a switch changes no console; an unknown terminal is refused; a page entry points to video memory exactly if its terminal is visible |
| `Terminals.Kernel.SchedulerRemapVideo` | mp3/student-distrib/scheduler.c:256-291 | mapping a terminal's page keeps that and changes no console |
| `Terminals.Kernel.Reschedule` | mp3/student-distrib/scheduler.c:116-139 | another process gets its turn and its terminal's page |
| `Terminals.Kernel.PutcAt` | mp3/student-distrib/lib.c:437-497 | a character changes the addressed terminal's console only, visible or not; it faults exactly if the page was never mapped, where `Terminals.TextAppears` says what appears |
| `Terminals.Kernel.StoreCell` | mp3/student-distrib/lib.c:455-456 | two bytes written through the page change that terminal's screen only |
| `Terminals.Kernel.StoreKey` | mp3/student-distrib/scheduler.c:211 | a key stored belongs to the visible terminal |
| `Terminals.Kernel.Interleave` | mp3/student-distrib/scheduler.c:170-291 | over every interleaving of switches, turns and writes the kernel refines three private consoles |
| `Processes.PushKeepsForest` | mp3/student-distrib/syscall.c:297-338 | a new process keeps the stacks disjoint, started by base shells, and adds one live process |
| `Processes.PopKeepsForest` | mp3/student-distrib/syscall.c:44-51 | so does removing a leaf that is no base shell |
| `Processes.PopUndoesPush` | mp3/student-distrib/syscall.c:44-111 | halt undoes execute |
| `Processes.SomePidFree` | mp3/student-distrib/syscall.c:223-231 | with fewer than six processes a number is free |
| `Processes.BaseShellsAreFirst` | mp3/student-distrib/syscall.c:44-50 | the test for numbers up to 3 recognises exactly the leaves that are base shells |
| `Processes.ChainGoesDownStack` | mp3/student-distrib/syscall.c:320-337 | following the parent pointers of the control blocks from a terminal's scheduled process visits exactly that terminal's stack, from the leaf to the base shell, and stays there |
| `Processes.ChainsPartitionSlots` | mp3/student-distrib/syscall.c:320-337 | every slot in use is on the chain of exactly one terminal and no other slot on any; the only process on a chain that is its own parent is the terminal's base shell |
| `Processes.ExecuteAccounts` | mp3/student-distrib/syscall.c:320-337 | the tables after execute describe the stacks with the new leaf |
| `Processes.HaltAccounts` | mp3/student-distrib/syscall.c:51-111 | the tables after halt describe the stacks without the leaf |
| `Processes.ParentOfLeafIsNoLeaf` | mp3/student-distrib/syscall.c:320-337 | in consistent tables the parent of a scheduled process that is no base shell is scheduled for no other terminal |
| `Processes.NoStacksFit` | mp3/student-distrib/syscall.c:337 | after the new process is entered under another terminal's number than its parent's, no stacks of processes whatever fit the tables |
| `Processes.LeafLost` | mp3/student-distrib/syscall.c:337 | and the process that was that terminal's leaf lies on no terminal's chain of parents any more |
| `Processes.SameForestSameTables` | mp3/student-distrib/syscall.c:266-338 | the stacks determine count, slots, leaves and live control blocks |
| `Processes.FirstFreeSlot` | mp3/student-distrib/syscall.c:223-231 | the first zero slot is the least free process number |
| `Processes.StepKeepsForest` | mp3/student-distrib/syscall.c:266-338 | every operation of the simple view keeps its stacks well-formed |
| `Processes.TurnsRotate` | mp3/student-distrib/scheduler.c:86-139 | over every run the turn has passed on by as many terminals, modulo three, as there were timer interrupts, and by nothing else; the monitor shows the terminal last switched to |
| `Processes.EveryTerminalHasItsTurn` | mp3/student-distrib/scheduler.c:90-116 | among any three consecutive timer interrupts every terminal gets its turn, once |
| `Processes.HaltUndoesExecute` | mp3/student-distrib/syscall.c:44-111 | on the stacks: execute from the terminal on the monitor, followed by halt, restores them and the running process, with its own frame mapped |
| `Processes.TablesFollow` | mp3/student-distrib/syscall.c:36-338 | every step in the foreground takes tables that describe some stacks to tables that describe the stacks after the step |
| `Processes.StepLosesNobody` | mp3/student-distrib/syscall.c:337 | from consistent tables: after a step every live process is still on some terminal's chain, and likewise some stacks fit the tables, if and only if the step starts no program in the background |
| `Processes.LostExactlyInBackground` | mp3/student-distrib/syscall.c:337 | over runs of the tables: every live process stays on some terminal's chain throughout if and only if no program is started in the background |
| `Processes.ForegroundAgrees` | mp3/student-distrib/syscall.c:266-338 | a run in the foreground according to the stacks is one according to the tables |
| `Processes.HaltUndoesExecuteExactly` | mp3/student-distrib/syscall.c:36-338 | a program that is started and halts leaves the tables as they were, up to its own control block, if and only if it was started in the foreground; otherwise the terminal on the monitor is left with the number of a process that does not exist |
| `Processes.UndisturbedExactly` | mp3/student-distrib/scheduler.c:116-139 | corollary of `Processes.Kernel.Run`: over every foreground run a terminal's processes stay the same throughout if and only if no program starts while it is on the monitor and none above its base shell halts in its turn |
| `Processes.OwnFrameExactly` | mp3/student-distrib/syscall.c:233-264 | corollary of `Processes.Kernel.Run`: over every foreground run the running process has its own 4 MB frame mapped throughout if and only if it has it at first and programs that fail to load are executed only while six processes are live |
| `Processes.BaseShellsSurvive` | mp3/student-distrib/syscall.c:44-49 | corollary of `Processes.LostExactlyInBackground`: over foreground runs of the tables each terminal's base shell keeps its slot and stays on its terminal's chain |
| `Processes.BaseShellsAccount` | mp3/student-distrib/syscall.c:267-296 | the tables after start-up describe three base shells |
| `Processes.Kernel.constructor` | mp3/student-distrib/syscall.c:15-30 | no process, no slot in use |
| `Processes.Kernel.StartShell` | mp3/student-distrib/syscall.c:267-296 | a base shell takes the next number and is its own parent |
| `Processes.Kernel.BootTick` | mp3/student-distrib/scheduler.c:60-114 | a terminal without a shell gets one |
| `Processes.Kernel.Boot` | mp3/student-distrib/scheduler.c:60-114 | three timer interrupts establish the invariant, with a base shell on every terminal |
| `Processes.Kernel.FindSlot` | mp3/student-distrib/syscall.c:223-231 | the loop finds the least free number |
| `Processes.Kernel.Execute` | mp3/student-distrib/syscall.c:143-338 | does to the tables what the step says, and fails exactly if there are six processes or the program cannot be started; some stacks of processes fit the tables afterwards if and only if it fails or the running process is on the visible terminal; a failed load leaves the wrong frame mapped |
| `Processes.Kernel.StartChild` | mp3/student-distrib/syscall.c:297-338 | the new process is the leaf of the visible terminal; some stacks fit the tables if and only if that is the running process's terminal |
| `Processes.Kernel.HaltProcess` | mp3/student-distrib/syscall.c:36-113 | whether or not the tables describe stacks, a base shell stays and any other process gives way to its parent, in the parent's frame; if the tables describe stacks, they still do |
| `Processes.Kernel.NextProcess` | mp3/student-distrib/scheduler.c:116-139 | the leaf of the next terminal's chain runs, in its own frame; which terminal is next is said by `Processes.TurnsRotate` |
| `Processes.Kernel.SwitchTerminal` | mp3/student-distrib/scheduler.c:170-200 | the process tables are not concerned |
| `Processes.Kernel.Run` | mp3/student-distrib/scheduler.c:86-139 | over every run that starts programs only on the visible terminal the kernel's tables are those of the run of tables and describe the stacks of the run of stacks; the turn rotates with the timer interrupts |
| `Processes.Kernel.Obey` | mp3/student-distrib/scheduler.c:86-139 | one step does the same to tables and stacks |
| `Processes.Kernel.ExecuteThenHalt` | mp3/student-distrib/syscall.c:36-338 | the kernel's tables and running process are as before, up to the child's control block, if and only if the running process is on the visible terminal; otherwise that terminal is left with the number of a process that does not exist |
| `Processes.Kernel.ExecuteAtStartUp` | mp3/student-distrib/syscall.c:337 | a program executed right after start-up, with terminal 0 on the monitor, succeeds and leaves tables that no stacks fit |
| `Numerals.NumeralReadsBack` | mp3/syscalls/ece391support.c:48-81 | the numeral of a number reads back as that number, and has no superfluous leading zero |
| `Numerals.OnlyNumeral` | mp3/syscalls/ece391support.c:48-81 | and it is the only such numeral |
| `Numerals.PlacesFit` | mp3/student-distrib/lib.c:523-528 | at most n digits exactly for numbers below the n-th power of the radix |
| `Numerals.NumeralsFit` | mp3/student-distrib/lib.c:344-393 | 32-bit numbers have at most 32 digits, 10 in decimal and 8 in hexadecimal, so the buffers suffice |
| `Numerals.LeadingZeros` | mp3/student-distrib/lib.c:356-359 | zeros in front do not change the value |
| `Numerals.Strlen` | mp3/student-distrib/lib.c:560-565 | the distance to the NUL |
| `Numerals.StrRev` | mp3/student-distrib/lib.c:541-554 | the string is reversed in place, and nothing before it changes |
| `Numerals.Itoa` | mp3/student-distrib/lib.c:505-535 | for every 32-bit value and radix 2 to 36 the buffer holds the number's numeral |
| `Numerals.Puts` | mp3/student-distrib/lib.c:424-431 | the string up to the NUL is printed |
| `Numerals.FillZeros` | mp3/student-distrib/lib.c:356-359 | the zeros are filled in up to index 8, and the numeral there stays |
| `Numerals.Unsigned` | mp3/student-distrib/lib.c:344-373 | %x and %u print the canonical numeral of the value |
| `Numerals.Signed` | mp3/student-distrib/lib.c:376-388 | %d prints it with a minus sign for negative values, the smallest included |
| `Numerals.AlternateHex` | mp3/student-distrib/lib.c:350-360 | %#x prints exactly eight hexadecimal digits that denote the value |

## Left out

- VGA registers, palettes, fonts, port access and memory mapping: hardware; video memory is four plane arrays.
- The memory fence around the build buffer: no access leaves the buffer, so it is never touched.
- The status bar, status messages and the status thread of the game: they have no effect on the world.
- Command line editing and the input device: a run is a sequence of commands and typed lines; a line is what the editing buffer holds when it is entered.
- File opening and memory allocation: readers and writers work on byte sequences, and the world is built from images already read.
- `rand ()`: its results are arbitrary natural numbers, so what is proved holds for all of them.
- The fill callbacks receive the scene as a value computed by following the lists, instead of following them again for each line.
- Truncation of coordinates to 16 bits: no coordinate in a photo of at most 1024x1024 pixels is affected.
- The Tux controller's transmit side and its packet handler: they depend on the serial driver, which is not part of this model.
- `Adventure.Game.GameLoop`: the photos of all rooms must be at least 320x182, though the reader accepts smaller ones: drawing a room whose photo is lower reads behind its pixels (`Adventure.RowsStayInPhoto`), and with a narrower one the right key moves the view off the photo, because the distance to move becomes negative (mp2/adventure.c:545-549, `Adventure.PansStayInPhoto`); real time is modelled separately, in `TickClock`.
- `ModeX.Display.DrawVertLine`: demands that the column lies inside the photo, because the code reads the photo there without a test.
- `ModeX.Display.DrawHorizLine`: demands the same of the row.
- `World.GameWorld.BuildWorld`: assumes that all images could be read, and does not model the checks for bad table entries.
- `TickClock.Clock.WaitForTick`: works on a given sequence of clock readings, and stops when they are used up.
- `PhotoFile.WriteOutputFile`: assumes a bitmap that passed the converter's header check.
- `Grep.DoOneFile`: demands files and patterns without NUL bytes, because NUL ends the strings that the program copies and compares, and an ideal file whose reads are short only at its end; what the system calls report as errors is left out.
- `Numerals.Itoa`: characters instead of signed bytes; the radix is 2 to 36, as the digit table allows.
- `Terminals.Kernel.StoreKey`: models the bytes of the key buffer; the index into it is not saved by a switch, so nothing is claimed about it.
- `Terminals.Kernel.PutcAt`: without the hardware cursor; scrolling, backspace and the page that user programs map for themselves are left out.
- `Terminals.TerminalsArePrivate`: does not extend to the cursor across terminal_read and terminal_write, which are not modelled; they copy the global cursor into the running terminal's record (`mp3/student-distrib/terminal.c:57-58`, `:73-74`, `:140-141`), terminal_read after interrupts are on again.
- `Processes.Kernel.Execute`: command parsing, file lookup and loading are reduced to their outcome; a program that a user starts before all three base shells are up is not modelled.
- `Processes.Kernel.Run`: covers runs that start programs only on the visible terminal, as do the lemmas on runs of stacks, because otherwise the tables describe no stacks; what the code does after a process has been lost is followed for one halt only (`Processes.Kernel.ExecuteThenHalt`), since it may later use a slot number that was never set.
- Saved stack pointers, the hardware stack switch, file descriptors and argument buffers of processes: they play no part in the bookkeeping.
- Interrupt handlers are atomic steps, as the code disables interrupts.
- The kernel's file system, device drivers, exception table and paging setup, and the programs in `mp1/` and `mp3/fish/`: in-memory lookups and device setup with easy properties.
