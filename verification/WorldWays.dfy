/** Ways through the areas of the adventure: every room of an area has a way to and from
    the area's hub that stays within the area. */
module WorldWays {
  import opened WorldTables
  import opened WorldProspects

  datatype Way = L | E | R

  function Next(r: RoomRef, way: Way): RoomRef {
    if r == NONE then NONE
    else match way
      case L => LeftOf(r)
      case E => InitialEnter(r)
      case R => RightOf(r)
  }

  /** Where the player enters an area; the game starts at the main one. */
  function Hub(area: Area): RoomId {
    match area
    case Main => R_EAST_EVRT
    case Csl => R_CSL_LOBBY
    case Lab => R_IN_395LAB
    case CleanRoom => R_IN_CLEANR
    case Beckman => R_BECKLOBBY
    case Allerton => R_ALLERTON
    case Airport => R_WILLARD
    case Antarctica => R_OVER_WILL
  }

  /** The first step from a room on the way to its area's hub. */
  function HomeWay(r: RoomId): Way {
    if r in {R_BY_CLEANR, R_ALMAMATER, R_BY_COCOMR, R_BY_ZAS, R_EVRT_BSMT, R_WEST_BONE, R_CIRCLE_N, R_TALBOT_NW,
             R_TALBOT_SW, R_SPRINGFLD, R_KENNEY, R_KENNEY_E, R_MNTL_NW, R_MNTL_SW, R_MNTL_LAB2, R_BECKMAN,
             R_BECK_DOOR, R_GARAGE, R_SUNSINGER, R_AIR_RIO, R_REM_ICE} then L
    else if r in {R_IN_391LAB, R_IN_IEEE, R_EVT_STAIR, R_EVRT_VEND, R_IN_COCOMR, R_CIRCLE_SW, R_BARDEEN, R_RESERVE,
                  R_TALBOT, R_CARIBOU, R_MNTLLOBBY, R_MNTL_LAB3, R_CSLLOUNGE, R_BECK_MRI, R_CAR_SITE, R_STATUE,
                  R_REM_LAB} then E
    else R
  }

  /** How many steps that takes. */
  function HomeDistance(r: RoomId): nat {
    if r in {R_IN_391LAB, R_LIB_BACK, R_SPRINGFLD, R_LIB_FRONT} then 5
    else if r in {R_BY_391LAB, R_IN_IEEE, R_CIRCLE_N, R_BARDEEN, R_TALBOT_SW, R_TALBOT} then 4
    else if r in {R_BY_IEEE, R_IN_COCOMR, R_BY_ZAS, R_WEST_BONE, R_EAST_BONE, R_TALBOT_NW, R_COCKPIT, R_REM_LAB} then 3
    else if r in {R_BY_395LAB, R_BY_CLEANR, R_EVRT_VEND, R_BY_COCOMR, R_CIRCLE_SW, R_CSLLOUNGE, R_STATUE,
                  R_REM_PLANE, R_REM_ICE} then 2
    else if r in {R_EVT_STAIR, R_ALMAMATER, R_EVRT_BSMT, R_CSL_UPPER, R_BECK_MRI, R_FU_DOGS, R_SUNSINGER,
                  R_WILL_SIDE, R_AIR_RIO} then 1
    else if r in {R_RESERVE, R_CARIBOU, R_KENNEY, R_DCL} then 6
    else if r == R_KENNEY_E then 7
    else if r == R_NEWMARK then 8
    else if r == R_MNTL_NW then 9
    else if r in {R_MNTL_SW, R_CSL_VIEW, R_CSL_DOOR} then 10
    else if r in {R_MNTLLOBBY, R_BECK_LOT, R_BECKMAN, R_BECK_DOOR} then 11
    else if r in {R_MNTL_LAB1, R_MNTL_LAB2, R_GARAGE} then 12
    else if r in {R_MNTL_LAB3, R_CAR_SITE} then 13
    else 0
  }

  /** The last room on the way from its area's hub to a room, and the last step. */
  function OutFrom(r: RoomId): RoomId {
    if r == R_IN_391LAB then R_BY_391LAB
    else if r in {R_BY_391LAB, R_IN_IEEE} then R_BY_IEEE
    else if r == R_BY_IEEE then R_BY_395LAB
    else if r in {R_BY_395LAB, R_BY_CLEANR} then R_EVT_STAIR
    else if r in {R_EVT_STAIR, R_ALMAMATER, R_EVRT_BSMT} then R_EAST_EVRT
    else if r in {R_EVRT_VEND, R_CIRCLE_SW} then R_EVRT_BSMT
    else if r in {R_IN_COCOMR, R_BY_ZAS} then R_BY_COCOMR
    else if r == R_BY_COCOMR then R_ALMAMATER
    else if r in {R_WEST_BONE, R_TALBOT_NW} then R_CIRCLE_N
    else if r in {R_CIRCLE_N, R_EAST_BONE} then R_CIRCLE_SW
    else if r == R_BARDEEN then R_LIB_BACK
    else if r == R_LIB_BACK then R_RESERVE
    else if r == R_RESERVE then R_LIB_FRONT
    else if r in {R_TALBOT_SW, R_TALBOT} then R_TALBOT_NW
    else if r == R_SPRINGFLD then R_TALBOT_SW
    else if r in {R_CARIBOU, R_KENNEY} then R_SPRINGFLD
    else if r == R_DCL then R_KENNEY
    else if r in {R_LIB_FRONT, R_KENNEY_E} then R_DCL
    else if r == R_NEWMARK then R_KENNEY_E
    else if r == R_MNTL_NW then R_NEWMARK
    else if r in {R_MNTL_SW, R_MNTL_LAB1, R_MNTL_LAB2} then R_MNTLLOBBY
    else if r in {R_MNTLLOBBY, R_CSL_VIEW} then R_MNTL_NW
    else if r == R_MNTL_LAB3 then R_MNTL_LAB2
    else if r in {R_CSL_DOOR, R_BECK_LOT} then R_CSL_VIEW
    else if r == R_CSL_UPPER then R_CSL_LOBBY
    else if r == R_CSLLOUNGE then R_CSL_UPPER
    else if r == R_BECKMAN then R_MNTL_SW
    else if r == R_BECK_DOOR then R_BECKMAN
    else if r == R_BECK_MRI then R_BECKLOBBY
    else if r == R_GARAGE then R_BECK_LOT
    else if r == R_CAR_SITE then R_GARAGE
    else if r in {R_FU_DOGS, R_SUNSINGER} then R_ALLERTON
    else if r == R_STATUE then R_FU_DOGS
    else if r == R_WILL_SIDE then R_WILLARD
    else if r == R_REM_PLANE then R_WILL_SIDE
    else if r == R_COCKPIT then R_REM_PLANE
    else if r == R_AIR_RIO then R_OVER_WILL
    else if r == R_REM_ICE then R_AIR_RIO
    else if r == R_REM_LAB then R_REM_ICE
    else R_EAST_EVRT
  }

  function OutWay(r: RoomId): Way {
    if r in {R_BY_391LAB, R_BY_IEEE, R_BY_395LAB, R_ALMAMATER, R_WEST_BONE, R_EAST_BONE, R_MNTL_NW, R_MNTL_LAB1,
             R_CSL_UPPER, R_BECK_LOT, R_FU_DOGS, R_REM_PLANE, R_COCKPIT} then L
    else if r in {R_IN_391LAB, R_IN_IEEE, R_EVT_STAIR, R_EVRT_VEND, R_IN_COCOMR, R_LIB_BACK, R_RESERVE, R_TALBOT_NW,
                  R_TALBOT, R_CARIBOU, R_KENNEY_E, R_MNTL_SW, R_MNTLLOBBY, R_MNTL_LAB3, R_CSL_DOOR, R_CSLLOUNGE,
                  R_BECK_DOOR, R_BECK_MRI, R_GARAGE, R_CAR_SITE, R_STATUE, R_WILL_SIDE, R_REM_LAB} then E
    else R
  }

  function OutDistance(r: RoomId): nat {
    if r in {R_IN_391LAB, R_TALBOT_SW, R_TALBOT} then 5
    else if r in {R_BY_391LAB, R_IN_IEEE, R_WEST_BONE, R_TALBOT_NW} then 4
    else if r in {R_BY_IEEE, R_IN_COCOMR, R_BY_ZAS, R_CIRCLE_N, R_EAST_BONE, R_COCKPIT, R_REM_LAB} then 3
    else if r in {R_BY_395LAB, R_BY_CLEANR, R_EVRT_VEND, R_BY_COCOMR, R_CIRCLE_SW, R_CSLLOUNGE, R_STATUE,
                  R_REM_PLANE, R_REM_ICE} then 2
    else if r in {R_EVT_STAIR, R_ALMAMATER, R_EVRT_BSMT, R_CSL_UPPER, R_BECK_MRI, R_FU_DOGS, R_SUNSINGER,
                  R_WILL_SIDE, R_AIR_RIO} then 1
    else if r in {R_BARDEEN, R_MNTLLOBBY, R_CSL_VIEW} then 12
    else if r in {R_LIB_BACK, R_MNTL_NW} then 11
    else if r in {R_RESERVE, R_NEWMARK} then 10
    else if r == R_SPRINGFLD then 6
    else if r in {R_CARIBOU, R_KENNEY} then 7
    else if r == R_DCL then 8
    else if r in {R_LIB_FRONT, R_KENNEY_E} then 9
    else if r in {R_MNTL_SW, R_MNTL_LAB1, R_MNTL_LAB2, R_CSL_DOOR, R_BECK_LOT} then 13
    else if r in {R_MNTL_LAB3, R_BECKMAN, R_GARAGE} then 14
    else if r in {R_BECK_DOOR, R_CAR_SITE} then 15
    else 0
  }

  lemma HomeStep(r: RoomId)
    requires r != R_INVENTORY && r != Hub(AreaOf(r))
    ensures var next := Next(r, HomeWay(r));
            next != NONE && next != R_INVENTORY && AreaOf(next) == AreaOf(r) && HomeDistance(next) < HomeDistance(r)
  {
    HomeStepStays(r);
    HomeStepNears(r);
  }

  lemma HomeStepStays(r: RoomId)
    requires r != R_INVENTORY && r != Hub(AreaOf(r))
    ensures var next := Next(r, HomeWay(r));
            next != NONE && next != R_INVENTORY && AreaOf(next) == AreaOf(r)
  {
    hide HomeDistance;
    if AreaOf(r) == Main {
      HomeStepInMain(r);
    }
  }

  lemma HomeStepInMain(r: RoomId)
    requires r != R_INVENTORY && r != R_EAST_EVRT && AreaOf(r) == Main
    ensures var next := Next(r, HomeWay(r));
            next != NONE && next != R_INVENTORY && AreaOf(next) == Main
  {
    hide HomeDistance;
  }

  lemma HomeStepNears(r: RoomId)
    requires r != R_INVENTORY && r != Hub(AreaOf(r)) && Next(r, HomeWay(r)) != NONE
    ensures HomeDistance(Next(r, HomeWay(r))) < HomeDistance(r)
  {
  }

  lemma OutStep(r: RoomId)
    requires r != R_INVENTORY && r != Hub(AreaOf(r))
    ensures var last := OutFrom(r);
            && last != R_INVENTORY && AreaOf(last) == AreaOf(r) && OutDistance(last) < OutDistance(r)
            && Next(last, OutWay(r)) == r
  {
  }
}
