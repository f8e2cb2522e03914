/** The tables from which the world is built (mp2/world.c): rooms and their
    connections, objects with their names and starting places. */
module WorldTables {

  /** Stands for R_NONE and O_NONE, and for a null room or object pointer. */
  const NONE := -1

  const N_ROOMS := 64
  const N_OBJECTS := 20
  const N_SWAPS := 2

  type RoomId = r: int | 0 <= r < N_ROOMS
  type RoomRef = r: int | NONE <= r < N_ROOMS witness NONE
  type ObjId = o: int | 0 <= o < N_OBJECTS
  type ObjRef = o: int | NONE <= o < N_OBJECTS witness NONE

  // rooms
  const R_INVENTORY: RoomId := 0
  const R_IN_391LAB: RoomId := 1
  const R_BY_391LAB: RoomId := 2
  const R_IN_IEEE: RoomId := 3
  const R_BY_IEEE: RoomId := 4
  const R_IN_395LAB: RoomId := 5
  const R_BY_395LAB: RoomId := 6
  const R_EVT_STAIR: RoomId := 7
  const R_IN_CLEANR: RoomId := 8
  const R_BY_CLEANR: RoomId := 9
  const R_EVRT_VEND: RoomId := 10
  const R_ALMAMATER: RoomId := 11
  const R_IN_COCOMR: RoomId := 12
  const R_BY_COCOMR: RoomId := 13
  const R_BY_ZAS: RoomId := 14
  const R_EAST_EVRT: RoomId := 15
  const R_EVRT_BSMT: RoomId := 16
  const R_WEST_BONE: RoomId := 17
  const R_CIRCLE_N: RoomId := 18
  const R_CIRCLE_SW: RoomId := 19
  const R_EAST_BONE: RoomId := 20
  const R_BARDEEN: RoomId := 21
  const R_LIB_BACK: RoomId := 22
  const R_RESERVE: RoomId := 23
  const R_TALBOT_NW: RoomId := 24
  const R_TALBOT_SW: RoomId := 25
  const R_TALBOT: RoomId := 26
  const R_SPRINGFLD: RoomId := 27
  const R_CARIBOU: RoomId := 28
  const R_KENNEY: RoomId := 29
  const R_DCL: RoomId := 30
  const R_LIB_FRONT: RoomId := 31
  const R_KENNEY_E: RoomId := 32
  const R_NEWMARK: RoomId := 33
  const R_MNTL_NW: RoomId := 34
  const R_MNTL_SW: RoomId := 35
  const R_MNTLLOBBY: RoomId := 36
  const R_MNTL_LAB1: RoomId := 37
  const R_MNTL_LAB2: RoomId := 38
  const R_MNTL_LAB3: RoomId := 39
  const R_CSL_VIEW: RoomId := 40
  const R_CSL_DOOR: RoomId := 41
  const R_CSL_LOBBY: RoomId := 42
  const R_CSL_UPPER: RoomId := 43
  const R_CSLLOUNGE: RoomId := 44
  const R_BECK_LOT: RoomId := 45
  const R_BECKMAN: RoomId := 46
  const R_BECK_DOOR: RoomId := 47
  const R_BECKLOBBY: RoomId := 48
  const R_BECK_MRI: RoomId := 49
  const R_GARAGE: RoomId := 50
  const R_CAR_SITE: RoomId := 51
  const R_ALLERTON: RoomId := 52
  const R_FU_DOGS: RoomId := 53
  const R_STATUE: RoomId := 54
  const R_SUNSINGER: RoomId := 55
  const R_WILLARD: RoomId := 56
  const R_WILL_SIDE: RoomId := 57
  const R_REM_PLANE: RoomId := 58
  const R_COCKPIT: RoomId := 59
  const R_OVER_WILL: RoomId := 60
  const R_AIR_RIO: RoomId := 61
  const R_REM_ICE: RoomId := 62
  const R_REM_LAB: RoomId := 63

  // objects
  const O_BOARD: ObjId := 0
  const O_JETPACK: ObjId := 1
  const O_TUX: ObjId := 2
  const O_MP2: ObjId := 3
  const O_BOOK_C: ObjId := 4
  const O_BOOK_WODE: ObjId := 5
  const O_GPS_BAD: ObjId := 6
  const O_GPS_GOOD: ObjId := 7
  const O_GPS_SPEC: ObjId := 8
  const O_BUNNYSUIT: ObjId := 9
  const O_BATT_EMPTY: ObjId := 10
  const O_BATT_FULL: ObjId := 11
  const O_BATT_CAR: ObjId := 12
  const O_MTN_DEW: ObjId := 13
  const O_FISH: ObjId := 14
  const O_ICARD: ObjId := 15
  const O_CAR_KEY: ObjId := 16
  const O_ROBOT_DEAD: ObjId := 17
  const O_ROBOT_LIVE: ObjId := 18
  const O_MIMO_CARD: ObjId := 19

  /** Accomplishments of the player. */
  datatype Flag = HasEaten | WearingSuit | CarOpen | CarFixed | LuredTux

  // photo swaps
  const SWAP_CIRCLE := 0
  const SWAP_CAR := 1

  /** The room to the "left". */
  function LeftOf(r: RoomId): RoomRef {
    if r == R_BY_391LAB then R_BY_ZAS
    else if r == R_BY_IEEE then R_BY_391LAB
    else if r == R_BY_395LAB then R_BY_IEEE
    else if r == R_EVT_STAIR then R_BY_395LAB
    else if r == R_BY_CLEANR then R_EVT_STAIR
    else if r == R_EVRT_VEND then R_BY_CLEANR
    else if r == R_ALMAMATER || r == R_EVRT_BSMT then R_EAST_EVRT
    else if r == R_BY_COCOMR || r == R_EAST_EVRT then R_ALMAMATER
    else if r == R_BY_ZAS then R_BY_COCOMR
    else if r == R_WEST_BONE || r == R_TALBOT_NW then R_CIRCLE_SW
    else if r == R_CIRCLE_N then R_WEST_BONE
    else if r == R_CIRCLE_SW then R_EAST_BONE
    else if r == R_EAST_BONE then R_CIRCLE_N
    else if r == R_BARDEEN then R_LIB_BACK
    else if r == R_LIB_BACK || r == R_LIB_FRONT || r == R_KENNEY_E then R_DCL
    else if r == R_TALBOT_SW then R_TALBOT_NW
    else if r == R_SPRINGFLD then R_TALBOT_SW
    else if r == R_KENNEY then R_SPRINGFLD
    else if r == R_DCL then R_KENNEY
    else if r == R_NEWMARK || r == R_MNTL_SW then R_MNTL_NW
    else if r == R_MNTL_NW then R_NEWMARK
    else if r == R_MNTLLOBBY then R_MNTL_LAB1
    else if r == R_MNTL_LAB2 then R_MNTLLOBBY
    else if r == R_CSL_VIEW || r == R_CSL_DOOR || r == R_GARAGE then R_BECK_LOT
    else if r == R_CSL_LOBBY then R_CSL_UPPER
    else if r == R_BECK_LOT then R_BECKMAN
    else if r == R_BECKMAN || r == R_BECK_DOOR then R_MNTL_SW
    else if r == R_ALLERTON then R_FU_DOGS
    else if r == R_SUNSINGER then R_ALLERTON
    else if r == R_WILL_SIDE then R_REM_PLANE
    else if r == R_REM_PLANE then R_COCKPIT
    else if r == R_AIR_RIO then R_OVER_WILL
    else if r == R_REM_ICE then R_AIR_RIO
    else NONE
  }

  /** The room initially reached by "enter". */
  function InitialEnter(r: RoomId): RoomRef {
    if r == R_IN_391LAB then R_BY_391LAB
    else if r == R_BY_391LAB then R_IN_391LAB
    else if r == R_IN_IEEE then R_BY_IEEE
    else if r == R_BY_IEEE then R_IN_IEEE
    else if r == R_IN_395LAB then R_BY_395LAB
    else if r == R_EVT_STAIR || r == R_ALMAMATER then R_EAST_EVRT
    else if r == R_IN_CLEANR then R_BY_CLEANR
    else if r == R_EVRT_VEND || r == R_CIRCLE_SW then R_EVRT_BSMT
    else if r == R_IN_COCOMR then R_BY_COCOMR
    else if r == R_BY_COCOMR then R_IN_COCOMR
    else if r == R_EAST_EVRT then R_EVT_STAIR
    else if r == R_EVRT_BSMT then R_EVRT_VEND
    else if r == R_CIRCLE_N || r == R_TALBOT then R_TALBOT_NW
    else if r == R_BARDEEN then R_EAST_BONE
    else if r == R_LIB_BACK || r == R_LIB_FRONT then R_RESERVE
    else if r == R_RESERVE then R_LIB_BACK
    else if r == R_TALBOT_NW || r == R_TALBOT_SW then R_TALBOT
    else if r == R_SPRINGFLD then R_CARIBOU
    else if r == R_CARIBOU then R_SPRINGFLD
    else if r == R_DCL then R_KENNEY_E
    else if r == R_KENNEY_E then R_DCL
    else if r == R_MNTL_NW || r == R_MNTL_SW then R_MNTLLOBBY
    else if r == R_MNTLLOBBY then R_MNTL_SW
    else if r == R_MNTL_LAB2 then R_MNTL_LAB3
    else if r == R_MNTL_LAB3 then R_MNTL_LAB2
    else if r == R_CSL_VIEW || r == R_CSL_LOBBY then R_CSL_DOOR
    else if r == R_CSL_UPPER then R_CSLLOUNGE
    else if r == R_CSLLOUNGE then R_CSL_UPPER
    else if r == R_BECK_LOT || r == R_CAR_SITE then R_GARAGE
    else if r == R_BECKMAN then R_BECK_DOOR
    else if r == R_BECKLOBBY then R_BECK_MRI
    else if r == R_BECK_MRI then R_BECKLOBBY
    else if r == R_GARAGE then R_CAR_SITE
    else if r == R_FU_DOGS then R_STATUE
    else if r == R_STATUE then R_FU_DOGS
    else if r == R_WILLARD then R_WILL_SIDE
    else if r == R_OVER_WILL then R_COCKPIT
    else if r == R_REM_ICE then R_REM_LAB
    else if r == R_REM_LAB then R_REM_ICE
    else NONE
  }

  /** The room to the "right". */
  function RightOf(r: RoomId): RoomRef {
    if r == R_BY_391LAB then R_BY_IEEE
    else if r == R_BY_IEEE then R_BY_395LAB
    else if r == R_BY_395LAB then R_EVT_STAIR
    else if r == R_EVT_STAIR then R_BY_CLEANR
    else if r == R_BY_CLEANR then R_EVRT_VEND
    else if r == R_ALMAMATER then R_BY_COCOMR
    else if r == R_BY_COCOMR then R_BY_ZAS
    else if r == R_EAST_EVRT then R_EVRT_BSMT
    else if r == R_EVRT_BSMT || r == R_EAST_BONE then R_CIRCLE_SW
    else if r == R_WEST_BONE || r == R_CIRCLE_SW then R_CIRCLE_N
    else if r == R_CIRCLE_N then R_EAST_BONE
    else if r == R_BARDEEN || r == R_TALBOT_NW || r == R_LIB_FRONT then R_TALBOT_SW
    else if r == R_LIB_BACK then R_BARDEEN
    else if r == R_RESERVE || r == R_DCL then R_LIB_FRONT
    else if r == R_TALBOT_SW then R_SPRINGFLD
    else if r == R_SPRINGFLD then R_KENNEY
    else if r == R_KENNEY then R_DCL
    else if r == R_KENNEY_E then R_NEWMARK
    else if r == R_NEWMARK then R_KENNEY_E
    else if r == R_MNTL_NW || r == R_BECK_LOT then R_CSL_VIEW
    else if r == R_MNTL_SW then R_BECKMAN
    else if r == R_MNTLLOBBY then R_MNTL_LAB2
    else if r == R_MNTL_LAB1 then R_MNTLLOBBY
    else if r == R_CSL_VIEW || r == R_CSL_DOOR then R_MNTL_NW
    else if r == R_CSL_UPPER then R_CSL_LOBBY
    else if r == R_BECKMAN || r == R_BECK_DOOR then R_BECK_LOT
    else if r == R_BECKLOBBY then R_BECK_DOOR
    else if r == R_ALLERTON then R_SUNSINGER
    else if r == R_FU_DOGS then R_ALLERTON
    else if r == R_WILL_SIDE then R_WILLARD
    else if r == R_REM_PLANE then R_WILL_SIDE
    else if r == R_COCKPIT then R_REM_PLANE
    else if r == R_OVER_WILL then R_AIR_RIO
    else if r == R_AIR_RIO then R_REM_ICE
    else NONE
  }

  /** Where each object starts; NONE is limbo. */
  function StartRoom(o: ObjId): RoomRef {
    if o == O_BOARD then R_IN_IEEE
    else if o == O_JETPACK then R_TALBOT
    else if o == O_TUX then R_REM_LAB
    else if o == O_MP2 then R_CSLLOUNGE
    else if o == O_GPS_BAD then R_TALBOT
    else if o == O_GPS_SPEC then R_CSL_UPPER
    else if o == O_BUNNYSUIT then R_ALMAMATER
    else if o == O_FISH then R_EAST_BONE
    else if o == O_ICARD then R_BARDEEN
    else if o == O_CAR_KEY then R_CARIBOU
    else if o == O_ROBOT_DEAD then R_MNTL_LAB3
    else if o == O_MIMO_CARD then R_STATUE
    else NONE
  }

  /** The objects whose starting position is fixed rather than random. */
  predicate HasStartPosition(o: ObjId) {
    o == O_TUX || o == O_BUNNYSUIT || o == O_FISH
  }

  function StartX(o: ObjId): nat {
    if o == O_TUX then 250 else if o == O_BUNNYSUIT then 230 else if o == O_FISH then 80 else 0
  }

  function StartY(o: ObjId): nat {
    if o == O_TUX then 100 else if o == O_BUNNYSUIT then 250 else if o == O_FISH then 260 else 0
  }

  /** The keyword by which the player refers to an object. */
  function Name(o: ObjId): string {
    if o == O_BOARD then "board"
    else if o == O_JETPACK then "jetpack"
    else if o == O_TUX then "tux"
    else if o == O_MP2 then "mp2"
    else if o == O_BOOK_C || o == O_BOOK_WODE then "book"
    else if o == O_GPS_BAD || o == O_GPS_GOOD then "gps"
    else if o == O_GPS_SPEC then "spec"
    else if o == O_BUNNYSUIT then "bunnysuit"
    else if o == O_BATT_EMPTY || o == O_BATT_FULL || o == O_BATT_CAR then "battery"
    else if o == O_MTN_DEW then "dew"
    else if o == O_FISH then "fish"
    else if o == O_ICARD then "Icard"
    else if o == O_CAR_KEY then "key"
    else if o == O_ROBOT_DEAD || o == O_ROBOT_LIVE then "robot"
    else "mimo"
  }

  // ----- case-insensitive comparison -----

  function Lower(c: char): char {
    if 'A' <= c <= 'Z' then c - 'A' + 'a' else c
  }

  /** strcasecmp (a, b) == 0 */
  predicate Same(a: string, b: string) {
    |a| == |b| && forall i | 0 <= i < |a| :: Lower(a[i]) == Lower(b[i])
  }
}
