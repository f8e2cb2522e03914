/** From the world to the game: which games can be won by pressing keys and typing lines. */
module Victory {
  import opened WorldTables
  import opened WorldSpec
  import opened WorldRuns
  import opened WorldChance
  import opened WorldProspects
  import opened WorldWinnable
  import opened Typing
  import opened Adventure
  import opened GameLaws

  // ----- arguments that mean something -----

  const N_WORDS := 24

  /** Every word that some command understands as its argument. */
  function Word(i: nat): string
    requires i < N_WORDS
  {
    if i == 0 then "board" else if i == 1 then "jetpack" else if i == 2 then "tux" else if i == 3 then "mp2"
    else if i == 4 then "book" else if i == 5 then "gps" else if i == 6 then "spec" else if i == 7 then "bunnysuit"
    else if i == 8 then "battery" else if i == 9 then "dew" else if i == 10 then "fish" else if i == 11 then "icard"
    else if i == 12 then "key" else if i == 13 then "robot" else if i == 14 then "mimo" else if i == 15 then "yogurt"
    else if i == 16 then "391" else if i == 17 then "allerton" else if i == 18 then "willard"
    else if i == 19 then "airport" else if i == 20 then "campus" else if i == 21 then "card"
    else if i == 22 then "transmitter" else "car"
  }

  predicate Known(arg: string) {
    exists i | 0 <= i < N_WORDS :: Same(Word(i), arg)
  }

  /** None of the words, and no object's name. */
  ghost predicate Meaningless(arg: string) {
    && (forall i | 0 <= i < N_WORDS :: !Same(Word(i), arg))
    && forall o: ObjId :: !Same(arg, Name(o))
  }

  lemma NamesAreWords(arg: string, o: ObjId)
    requires Same(arg, Name(o))
    ensures Known(arg)
  {
    var i := NameIndex(o);
    assert Same(Word(i), arg);
  }

  lemma NameIndex(o: ObjId) returns (i: nat)
    ensures i < N_WORDS && |Word(i)| == |Name(o)|
    ensures forall k | 0 <= k < |Name(o)| :: Lower(Word(i)[k]) == Lower(Name(o)[k])
  {
    i := if o == O_BOARD then 0 else if o == O_JETPACK then 1 else if o == O_TUX then 2 else if o == O_MP2 then 3
         else if o == O_BOOK_C || o == O_BOOK_WODE then 4 else if o == O_GPS_BAD || o == O_GPS_GOOD then 5
         else if o == O_GPS_SPEC then 6 else if o == O_BUNNYSUIT then 7
         else if o == O_BATT_EMPTY || o == O_BATT_FULL || o == O_BATT_CAR then 8
         else if o == O_MTN_DEW then 9 else if o == O_FISH then 10 else if o == O_ICARD then 11
         else if o == O_CAR_KEY then 12 else if o == O_ROBOT_DEAD || o == O_ROBOT_LIVE then 13 else 14;
  }

  lemma UnknownMeaningless(arg: string)
    requires !Known(arg)
    ensures Meaningless(arg)
  {
    forall o: ObjId
      ensures !Same(arg, Name(o))
    {
      if Same(arg, Name(o)) {
        NamesAreWords(arg, o);
      }
    }
  }

  lemma NothingMeaningless()
    ensures Meaningless("")
  {
  }

  lemma {:induction false} NothingNamed(q: seq<ObjId>, arg: string)
    requires Meaningless(arg)
    ensures FindByName(q, arg) == NONE
  {
    if q != [] {
      NothingNamed(q[1..], arg);
    }
  }

  /** Arguments that mean nothing are all alike. */
  lemma MeaninglessAlike(s: State, where: RoomId, verb: Verb, arg: string, arg': string, rnd: Rand)
    requires s.Shaped() && PlayerPlaced(s, where) && Meaningless(arg) && Meaningless(arg')
    ensures Perform(s, where, Typed(verb, arg), rnd) == Perform(s, where, Typed(verb, arg'), rnd)
  {
    WordsNotSaid(arg);
    WordsNotSaid(arg');
    hide Meaningless, Same, Name, Remove, ToInventory, InsertAt, Insert, SwapPhoto;
    forall q: seq<ObjId>
      ensures FindByName(q, arg) == FindByName(q, arg') == NONE
    {
      NothingNamed(q, arg);
      NothingNamed(q, arg');
    }
  }

  lemma WordsNotSaid(arg: string)
    requires Meaningless(arg)
    ensures !Same("mp2", arg) && !Same("book", arg) && !Same("gps", arg) && !Same("bunnysuit", arg)
    ensures !Same("battery", arg) && !Same("dew", arg) && !Same("fish", arg) && !Same("robot", arg)
    ensures !Same("mimo", arg) && !Same("yogurt", arg) && !Same("391", arg) && !Same("allerton", arg)
    ensures !Same("willard", arg) && !Same("airport", arg) && !Same("campus", arg) && !Same("card", arg)
    ensures !Same("transmitter", arg) && !Same("car", arg)
  {
    hide Same, Word;
    NotSaid(arg, 3);
    NotSaid(arg, 4);
    NotSaid(arg, 5);
    NotSaid(arg, 7);
    NotSaid(arg, 8);
    NotSaid(arg, 9);
    NotSaid(arg, 10);
    NotSaid(arg, 13);
    NotSaid(arg, 14);
    NotSaid(arg, 15);
    NotSaid(arg, 16);
    NotSaid(arg, 17);
    NotSaid(arg, 18);
    NotSaid(arg, 19);
    NotSaid(arg, 20);
    NotSaid(arg, 21);
    NotSaid(arg, 22);
    NotSaid(arg, 23);
    SomeWords();
    OtherWords();
    LastWords();
  }

  lemma NotSaid(arg: string, i: nat)
    requires Meaningless(arg) && i < N_WORDS
    ensures !Same(Word(i), arg)
  {
  }

  lemma SomeWords()
    ensures Word(3) == "mp2" && Word(4) == "book" && Word(5) == "gps" && Word(7) == "bunnysuit" && Word(8) == "battery"
    ensures Word(9) == "dew" && Word(10) == "fish" && Word(13) == "robot" && Word(14) == "mimo"
  {
  }

  lemma OtherWords()
    ensures Word(15) == "yogurt" && Word(16) == "391" && Word(17) == "allerton" && Word(18) == "willard"
    ensures Word(19) == "airport" && Word(20) == "campus"
  {
  }

  lemma LastWords()
    ensures Word(21) == "card" && Word(22) == "transmitter" && Word(23) == "car"
  {
  }

  // ----- keys and lines for actions -----

  /** The characters that the keyboard reader accepts for a line, and how many of them. */
  predicate Typeable(line: string) {
    && |line| <= 20
    && forall i | 0 <= i < |line| :: TypeableChar(line[i])
  }

  predicate TypeableChar(c: char) {
    'a' <= c <= 'z' || 'A' <= c <= 'Z' || '0' <= c <= '9' || c == ' '
  }

  /** The whole word for a command, and a space. */
  function Opening(verb: Verb): string {
    match verb
    case VBuy => "buy " case VCharge => "charge " case VDo => "do " case VDrink => "drink " case VDrop => "drop "
    case VFix => "fix " case VFlash => "flash " case VGet => "get " case VGo => "go " case VInstall => "install "
    case VInventory => "inventory " case VSigh => "sigh " case VUse => "use " case VWear => "wear "
  }

  /** What is typed behind it: nothing if it means nothing. */
  function Meant(verb: Verb, arg: string): string {
    if Known(arg) && verb != VInventory && verb != VSigh then arg else ""
  }

  /** What to press or type for an action. */
  function CmdFor(deed: Deed): Cmd {
    match deed
    case GoLeft => CmdMoveLeft
    case GoEnter => CmdEnter
    case GoRight => CmdMoveRight
    case Typed(verb, arg) => CmdTyped(Opening(verb) + Meant(verb, arg))
  }

  function DeedMeant(deed: Deed): Deed {
    match deed
    case Typed(verb, arg) => Typed(verb, Meant(verb, arg))
    case _ => deed
  }

  lemma PlainWord(i: nat)
    requires i < N_WORDS
    ensures 0 < |Word(i)| <= 11
    ensures forall k | 0 <= k < |Word(i)| :: 'a' <= Word(i)[k] <= 'z' || '0' <= Word(i)[k] <= '9'
  {
  }

  lemma KnownTypeable(arg: string)
    requires Known(arg)
    ensures 0 < |arg| <= 11 && forall k | 0 <= k < |arg| :: TypeableChar(arg[k]) && arg[k] != ' '
  {
    hide Word;
    var i :| 0 <= i < N_WORDS && Same(Word(i), arg);
    PlainWord(i);
    forall k | 0 <= k < |arg|
      ensures TypeableChar(arg[k]) && arg[k] != ' '
    {
      assert Lower(Word(i)[k]) == Lower(arg[k]);
    }
  }

  lemma PlainOpening(verb: Verb)
    ensures var opening := Opening(verb);
            && 1 < |opening| <= 10 && (verb != VInventory ==> |opening| <= 9) && opening[|opening| - 1] == ' '
            && (forall k | 0 <= k < |opening| :: TypeableChar(opening[k]))
            && (forall k | 0 <= k < |opening| - 1 :: opening[k] != ' ')
            && Says(opening[..|opening| - 1], verb)
  {
    hide Typing.SameLetter;
    SameLetters();
    var opening := Opening(verb);
    var word := opening[..|opening| - 1];
    assert forall k | 0 <= k < |word| :: word[k] == opening[k];
  }

  lemma SameLetters()
    ensures forall c: char :: Typing.SameLetter(c, c)
  {
  }

  /** The line can be typed, and means the action. */
  lemma LineMeans(verb: Verb, arg: string)
    ensures Typeable(Opening(verb) + Meant(verb, arg))
    ensures DeedOf(CmdTyped(Opening(verb) + Meant(verb, arg))) == ADeed(Typed(verb, Meant(verb, arg)))
  {
    hide Opening, Says, Known, DeedOf;
    PlainOpening(verb);
    if Known(arg) {
      KnownTypeable(arg);
    }
    var opening, meant := Opening(verb), Meant(verb, arg);
    var word := opening[..|opening| - 1];
    OneLine(opening, word, meant);
    LinesAct(opening + meant, verb, meant);
  }

  lemma OneLine(opening: string, word: string, meant: string)
    requires |opening| > 1 && word == opening[..|opening| - 1] && opening[|opening| - 1] == ' '
    requires forall k | 0 <= k < |opening| - 1 :: opening[k] != ' '
    requires meant != "" ==> meant[0] != ' '
    ensures Splits(opening + meant, "", word, " ", meant)
  {
    assert "" + word + " " == opening;
    assert forall k | 0 <= k < |word| :: word[k] == opening[k];
  }

  /** ... with the same outcome. */
  lemma MeantAlike(s: State, where: RoomId, deed: Deed, rnd: Rand)
    requires s.Shaped() && PlayerPlaced(s, where)
    ensures Perform(s, where, DeedMeant(deed), rnd) == Perform(s, where, deed, rnd)
  {
    hide Known, Meaningless, Buy, Charge, Do, Drink, Drop, Fix, Flash, Get, Go, Install, Use, Wear;
    if deed.Typed? && Meant(deed.verb, deed.arg) != deed.arg && deed.verb != VInventory && deed.verb != VSigh {
      UnknownMeaningless(deed.arg);
      NothingMeaningless();
      MeaninglessAlike(s, where, deed.verb, deed.arg, "", rnd);
    }
  }

  // ----- games and their worlds -----

  /** The actions that events stand for, up to quitting. */
  function TurnsOf(es: seq<GameEvent>): seq<Turn> {
    if es == [] || es[0].cmd == CmdQuit then []
    else
      var d := DeedOf(es[0].cmd);
      (if d.ADeed? then [Turn(d.deed, es[0].rnd)] else []) + TurnsOf(es[1..])
  }

  /** A game is won exactly if its actions win in its world. */
  lemma {:induction false} GameWonInWorld(g: GameState, es: seq<GameEvent>)
    requires Playing(g)
    ensures Invariant(g.s, g.where)
    ensures Film(g, es).0 == GameWon <==> Play(g.s, g.where, TurnsOf(es)).1 == NONE
    ensures Film(g, es).0 == GameWon ==> Later(g, es).where == NONE
    decreases |es|
  {
    hide Film, Next, DeedOf, Perform, Invariant, Playing;
    InWorld(g);
    FilmUnrolled(g, es);
    if es != [] && es[0].cmd != CmdQuit {
      var h, d := Next(g, es[0]), DeedOf(es[0].cmd);
      NextInWorld(g, es[0]);
      PlayersRoom(h);
      if h.where != NONE {
        GameWonInWorld(h, es[1..]);
      }
      if d.ADeed? {
        PerformKeeps(g.s, g.where, d.deed, es[0].rnd);
        assert TurnsOf(es)[0] == Turn(d.deed, es[0].rnd) && TurnsOf(es)[1..] == TurnsOf(es[1..]);
      } else {
        assert TurnsOf(es) == TurnsOf(es[1..]);
      }
    }
  }

  lemma InWorld(g: GameState)
    requires Playing(g)
    ensures g.where != NONE && g.s.Shaped() && Invariant(g.s, g.where) && PlayerPlaced(g.s, g.where)
  {
  }

  lemma NextInWorld(g: GameState, e: GameEvent)
    requires Playing(g) && g.where != NONE && g.s.Shaped() && PlayerPlaced(g.s, g.where)
    ensures var (h, d) := (Next(g, e), DeedOf(e.cmd));
            if d.ADeed? then
              var o := Perform(g.s, g.where, d.deed, e.rnd); h.s == o.s && h.where == o.where
            else h.s == g.s && h.where == g.where
  {
    hide Perform, Invariant, Parse, SpritesOf;
  }

  /** These keys and lines win, whatever chance does. */
  ghost predicate WinsGame(g: GameState, cmds: seq<Cmd>)
    requires Playing(g)
  {
    forall es: seq<GameEvent> | Presses(es, cmds) :: Film(g, es).0 == GameWon
  }

  ghost predicate Presses(es: seq<GameEvent>, cmds: seq<Cmd>) {
    |es| == |cmds| && forall i | 0 <= i < |es| :: es[i].cmd == cmds[i]
  }

  /** The keys that move the player, and lines of at most twenty letters, digits and spaces. */
  ghost predicate Possible(cmds: seq<Cmd>) {
    forall i | 0 <= i < |cmds| ::
      cmds[i] in {CmdMoveLeft, CmdEnter, CmdMoveRight} || (cmds[i].CmdTyped? && Typeable(cmds[i].text))
  }

  /** In any state of the game there are keys to press and lines to type that win, whatever chance does,
      exactly if the areas within reach hold all that it takes; otherwise nothing wins, not even by luck. */
  lemma GameWinnableExactly(g: GameState)
    requires Playing(g)
    ensures g.where != NONE && Invariant(g.s, g.where)
    ensures Winnable(g.s, Standing(g.s, g.where)) <==> exists cmds :: Possible(cmds) && WinsGame(g, cmds)
    ensures Winnable(g.s, Standing(g.s, g.where)) <==> exists es :: Film(g, es).0 == GameWon
  {
    hide Film, Invariant, Winnable, Playing, Play, TurnsOf, Wins, WinsGame, Possible;
    InWorld(g);
    WinnableExactly(g.s, g.where);
    if es :| Film(g, es).0 == GameWon {
      GameWonInWorld(g, es);
    }
    if cmds :| Possible(cmds) && WinsGame(g, cmds) {
      var es := WinningEvents(g, cmds);
    }
    if Winnable(g.s, Standing(g.s, g.where)) {
      var deeds :| Wins(g.s, g.where, deeds);
      var cmds := CmdsFor(deeds);
      CmdsWin(g, deeds);
      var es := WinningEvents(g, cmds);
    }
  }

  lemma WinningEvents(g: GameState, cmds: seq<Cmd>) returns (es: seq<GameEvent>)
    requires Playing(g) && WinsGame(g, cmds)
    ensures Film(g, es).0 == GameWon
  {
    hide Film, Playing;
    es := seq(|cmds|, i requires 0 <= i < |cmds| => GameEvent(cmds[i], Rand(0, 0)));
    assert Presses(es, cmds);
  }

  function CmdsFor(deeds: seq<Deed>): (cmds: seq<Cmd>)
    ensures |cmds| == |deeds| && forall i | 0 <= i < |deeds| :: cmds[i] == CmdFor(deeds[i])
  {
    seq(|deeds|, i requires 0 <= i < |deeds| => CmdFor(deeds[i]))
  }

  lemma CmdsPossible(deeds: seq<Deed>)
    ensures Possible(CmdsFor(deeds))
  {
    hide CmdFor;
    forall i | 0 <= i < |deeds|
      ensures CmdFor(deeds[i]) in {CmdMoveLeft, CmdEnter, CmdMoveRight}
              || (CmdFor(deeds[i]).CmdTyped? && Typeable(CmdFor(deeds[i]).text))
    {
      CmdMeans(deeds[i]);
      CmdKinds(deeds[i]);
    }
  }

  lemma CmdsWin(g: GameState, deeds: seq<Deed>)
    requires Playing(g) && Invariant(g.s, g.where) && Wins(g.s, g.where, deeds)
    ensures Possible(CmdsFor(deeds)) && WinsGame(g, CmdsFor(deeds))
  {
    hide Film, Invariant, Playing, Wins, CmdFor, Possible;
    CmdsPossible(deeds);
    forall es: seq<GameEvent> | Presses(es, CmdsFor(deeds))
      ensures Film(g, es).0 == GameWon
    {
      TypingWins(g, deeds, es);
    }
  }

  /** The events press and type what stands for the actions, whatever chance does. */
  ghost predicate EventsFor(es: seq<GameEvent>, deeds: seq<Deed>) {
    |es| == |deeds| && forall i | 0 <= i < |es| :: es[i].cmd == CmdFor(deeds[i])
  }

  function TurnsFor(es: seq<GameEvent>, deeds: seq<Deed>): (turns: seq<Turn>)
    requires |es| == |deeds|
  {
    seq(|es|, i requires 0 <= i < |es| => Turn(deeds[i], es[i].rnd))
  }

  /** Actions that win in the world win in the game, by way of what stands for them. */
  lemma TypingWins(g: GameState, deeds: seq<Deed>, es: seq<GameEvent>)
    requires Playing(g) && Invariant(g.s, g.where) && Wins(g.s, g.where, deeds) && EventsFor(es, deeds)
    ensures Film(g, es).0 == GameWon
  {
    hide Film, Invariant, Playing, Play, CmdFor;
    assert DeedsOf(TurnsFor(es, deeds)) == deeds;
    WorldFollows(g.s, g.where, deeds, es);
    GameWonInWorld(g, es);
  }

  lemma {:induction false} WorldFollows(s: State, where: RoomRef, deeds: seq<Deed>, es: seq<GameEvent>)
    requires Invariant(s, where) && EventsFor(es, deeds)
    ensures Play(s, where, TurnsOf(es)) == Play(s, where, TurnsFor(es, deeds))
    decreases |es|
  {
    hide Invariant, Perform, CmdFor, DeedOf, DeedMeant;
    if es != [] {
      var (deed, rnd) := (deeds[0], es[0].rnd);
      CmdMeans(deed);
      var turns := TurnsFor(es, deeds);
      assert turns[0] == Turn(deed, rnd) && turns[1..] == TurnsFor(es[1..], deeds[1..]);
      assert TurnsOf(es)[0] == Turn(DeedMeant(deed), rnd) && TurnsOf(es)[1..] == TurnsOf(es[1..]);
      if where != NONE {
        PlacedPlayer(s, where);
        PerformKeeps(s, where, deed, rnd);
        MeantAlike(s, where, deed, rnd);
        var o := Perform(s, where, deed, rnd);
        WorldFollows(o.s, o.where, deeds[1..], es[1..]);
      }
    }
  }

  lemma CmdMeans(deed: Deed)
    ensures CmdFor(deed) != CmdQuit && DeedOf(CmdFor(deed)) == ADeed(DeedMeant(deed))
    ensures CmdFor(deed).CmdTyped? ==> Typeable(CmdFor(deed).text)
  {
    hide Opening, Meant, Typeable, Parse;
    if deed.Typed? {
      LineMeans(deed.verb, deed.arg);
    }
  }

  /** The game as it starts. */
  function FirstState(m: Media, rnds: seq<Rand>): GameState
    requires m.Valid() && |rnds| == N_OBJECTS
  {
    GameState(Built(m, rnds, N_OBJECTS), START_ROOM, 0, 0, MOTION_SPEED, MOTION_SPEED)
  }

  /** There are keys to press and lines to type that win every game: for all images that fill the
      screen, wherever the objects were placed, and whatever chance does meanwhile. */
  lemma EveryGameCanBeWonByTyping() returns (cmds: seq<Cmd>)
    ensures Possible(cmds)
    ensures forall m: Media, rnds: seq<Rand> | m.Valid() && |rnds| == N_OBJECTS && PhotosFillScreen(m) ::
              Playing(FirstState(m, rnds)) && WinsGame(FirstState(m, rnds), cmds)
  {
    hide Invariant, Playing, Wins, Built, CmdFor, NewWorld, WinsGame, Possible;
    var deeds := EveryGameCanBeWon();
    cmds := CmdsFor(deeds);
    CmdsPossible(deeds);
    forall m: Media, rnds: seq<Rand> | m.Valid() && |rnds| == N_OBJECTS && PhotosFillScreen(m)
      ensures Playing(FirstState(m, rnds)) && WinsGame(FirstState(m, rnds), cmds)
    {
      FirstView(m, rnds);
      IsNewWorld(m, rnds);
      CmdsWin(FirstState(m, rnds), deeds);
    }
  }

  lemma CmdKinds(deed: Deed)
    ensures CmdFor(deed) in {CmdMoveLeft, CmdEnter, CmdMoveRight} || CmdFor(deed).CmdTyped?
  {
  }

  lemma IsNewWorld(m: Media, rnds: seq<Rand>)
    requires m.Valid() && |rnds| == N_OBJECTS
    ensures NewWorld(Built(m, rnds, N_OBJECTS))
  {
  }

  /** A game that is won has everything accomplished. */
  lemma WonMeansAccomplished(g: GameState, es: seq<GameEvent>)
    requires Playing(g) && Film(g, es).0 == GameWon
    ensures var h := Later(g, es); h.where == NONE && h.s.Shaped() && AllAccomplished(h.s)
  {
    hide Film, Playing, Play, Later;
    GameWonInWorld(g, es);
  }
}
