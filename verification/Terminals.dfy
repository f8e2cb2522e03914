/** The kernel's three virtual text terminals (mp3/student-distrib/scheduler.c and
    the character output of lib.c): one video memory, a backing page for each
    terminal, and page table entries that hide the difference. */
module Terminals {
  type byte = b: int | 0 <= b < 256

  const NUM_TERM := 3
  const NUM_COLS := 80
  const NUM_ROWS := 25
  const SCREEN_BYTES := NUM_COLS * NUM_ROWS * 2
  const PAGE_BYTES := 4096
  const MAX_INPUT_LENGTH := 127
  const ATTRIB: byte := 0x7

  // Physical pages: the backing page of terminal t is page t, and video memory comes last.
  const VIDEO := 3
  const UNMAPPED := -1

  type TermId = t: int | 0 <= t < NUM_TERM

  // ----- three private consoles -----

  /** What a program believes it has: a screen, a cursor and a line of typed keys. */
  datatype Console = Console(screen: seq<byte>, x: int, y: int, keys: seq<byte>) {
    ghost predicate Valid() {
      |screen| == SCREEN_BYTES && |keys| == MAX_INPUT_LENGTH && 0 <= x < NUM_COLS && 0 <= y < NUM_ROWS
    }
  }

  /** The byte offset of a character cell. */
  function Cell(x: int, y: int): int { (NUM_COLS * y + x) * 2 }

  /** putc: a character replaces a cell and moves the cursor along its row, whose end
      leads back to its beginning; a newline moves down, but not past the last row. */
  function Printed(c: Console, ch: byte): Console
    requires c.Valid()
  {
    if ch == 10 || ch == 13 then c.(x := 0, y := if c.y == NUM_ROWS - 1 then c.y else c.y + 1)
    else c.(screen := c.screen[Cell(c.x, c.y) := ch][Cell(c.x, c.y) + 1 := ATTRIB], x := (c.x + 1) % NUM_COLS)
  }

  /** Only a newline leads to another row: at the end of a row the cursor goes back to its beginning. */
  lemma OnlyNewlinesMoveDown(c: Console, ch: byte)
    requires c.Valid()
    ensures Printed(c, ch).y != c.y <==> (ch == 10 || ch == 13) && c.y < NUM_ROWS - 1
    ensures c.x == NUM_COLS - 1 && ch != 10 && ch != 13 ==> Printed(c, ch).x == 0
  {
  }

  function Keyed(c: Console, i: int, ch: byte): Console
    requires c.Valid() && 0 <= i < MAX_INPUT_LENGTH
  {
    c.(keys := c.keys[i := ch])
  }

  /** The terminals as their users see them: which one is on the monitor, which one the
      running process belongs to, and whether a terminal's page has been mapped yet. */
  datatype Desk = Desk(consoles: seq<Console>, visible: TermId, running: TermId, mapped: set<TermId>) {
    ghost predicate Valid() {
      |consoles| == NUM_TERM && forall t | 0 <= t < NUM_TERM :: consoles[t].Valid()
    }
  }

  datatype Op =
    | Switch(idx: nat)              // a function key
    | Schedule(next: TermId)        // the process of another terminal gets its turn
    | PutProcess(ch: byte)          // putc
    | PutUser(ch: byte)             // putc_user
    | Key(i: nat, ch: byte)         // a key stored in the key buffer

  /** Looking at another terminal, or running another process, changes no console. */
  function Step(d: Desk, op: Op): (r: Desk)
    requires d.Valid()
    ensures r.Valid()
  {
    match op
    case Switch(idx) =>
      if idx == d.visible || idx >= NUM_TERM then d
      else d.(visible := idx, mapped := d.mapped + {d.visible, idx})
    case Schedule(next) => d.(running := next, mapped := d.mapped + {next})
    case PutProcess(ch) =>
      if d.running in d.mapped then d.(consoles := d.consoles[d.running := Printed(d.consoles[d.running], ch)]) else d
    case PutUser(ch) =>
      if d.visible in d.mapped then d.(consoles := d.consoles[d.visible := Printed(d.consoles[d.visible], ch)]) else d
    case Key(i, ch) =>
      if i < MAX_INPUT_LENGTH then d.(consoles := d.consoles[d.visible := Keyed(d.consoles[d.visible], i, ch)]) else d
  }

  function Run(d: Desk, ops: seq<Op>): (r: Desk)
    requires d.Valid()
    ensures r.Valid()
    decreases |ops|
  {
    if ops == [] then d else Run(Step(d, ops[0]), ops[1..])
  }

  /** The operation maps terminal t's page: its turn begins, or a switch leaves it or shows it. */
  predicate Maps(d: Desk, op: Op, t: TermId) {
    match op
    case Switch(idx) => idx != d.visible && idx < NUM_TERM && (t == d.visible || t == idx)
    case Schedule(next) => t == next
    case _ => false
  }

  /** Over any run a terminal's page is mapped exactly if it was so at first or some operation maps it. */
  lemma {:induction false} MappedExactly(t: TermId, d: Desk, ops: seq<Op>)
    requires d.Valid()
    ensures t in Run(d, ops).mapped <==> t in d.mapped || exists k | 0 <= k < |ops| :: Maps(Run(d, ops[..k]), ops[k], t)
    decreases |ops|
  {
    if ops != [] {
      var next, later := Step(d, ops[0]), ops[1..];
      MappedExactly(t, next, later);
      assert ops[..0] == [];
      assert t in next.mapped <==> t in d.mapped || Maps(Run(d, ops[..0]), ops[0], t);
      forall k | 0 <= k < |later|
        ensures Maps(Run(next, later[..k]), later[k], t) <==> Maps(Run(d, ops[..k + 1]), ops[k + 1], t)
      {
        assert ops[..k + 1][1..] == later[..k];
      }
      if k :| 0 <= k < |ops| && Maps(Run(d, ops[..k]), ops[k], t) {
        assert k == 0 || Maps(Run(next, later[..k - 1]), later[k - 1], t);
      }
    }
  }

  /** The terminal last switched to that exists, and the one whose turn began last. */
  function ShownAfter(shown: TermId, ops: seq<Op>): TermId
    decreases |ops|
  {
    if ops == [] then shown
    else ShownAfter(if ops[0].Switch? && ops[0].idx < 3 then ops[0].idx else shown, ops[1..])
  }

  function RunningAfter(running: TermId, ops: seq<Op>): TermId
    decreases |ops|
  {
    if ops == [] then running else RunningAfter(if ops[0].Schedule? then ops[0].next else running, ops[1..])
  }

  /** Over any run the monitor shows the terminal last switched to, and the process of the terminal runs
      whose turn began last. */
  lemma {:induction false} LooksAndTurns(d: Desk, ops: seq<Op>)
    requires d.Valid()
    ensures Run(d, ops).visible == ShownAfter(d.visible, ops) && Run(d, ops).running == RunningAfter(d.running, ops)
    decreases |ops|
  {
    if ops != [] {
      LooksAndTurns(Step(d, ops[0]), ops[1..]);
    }
  }

  datatype Write = Print(ch: byte) | Store(i: nat, ch: byte)

  function Apply(c: Console, w: Write): (r: Console)
    requires c.Valid()
    ensures r.Valid()
  {
    match w
    case Print(ch) => Printed(c, ch)
    case Store(i, ch) => if i < MAX_INPUT_LENGTH then Keyed(c, i, ch) else c
  }

  function ApplyAll(c: Console, ws: seq<Write>): Console
    requires c.Valid()
    decreases |ws|
  {
    if ws == [] then c else ApplyAll(Apply(c, ws[0]), ws[1..])
  }

  /** The writes of a run that are addressed to terminal t, in order. */
  function WritesTo(t: TermId, d: Desk, ops: seq<Op>): seq<Write>
    requires d.Valid()
    decreases |ops|
  {
    if ops == [] then []
    else
      var rest := WritesTo(t, Step(d, ops[0]), ops[1..]);
      match ops[0]
      case PutProcess(ch) => if d.running == t && t in d.mapped then [Print(ch)] + rest else rest
      case PutUser(ch) => if d.visible == t && t in d.mapped then [Print(ch)] + rest else rest
      case Key(i, ch) => if d.visible == t then [Store(i, ch)] + rest else rest
      case _ => rest
  }

  /** Each terminal is as if private: after any run it holds what its own writes alone make of it. */
  lemma {:induction false} TerminalsArePrivate(t: TermId, d: Desk, ops: seq<Op>)
    requires d.Valid()
    ensures Run(d, ops).consoles[t] == ApplyAll(d.consoles[t], WritesTo(t, d, ops))
    decreases |ops|
  {
    if ops != [] {
      TerminalsArePrivate(t, Step(d, ops[0]), ops[1..]);
      var ws, rest := WritesTo(t, d, ops), WritesTo(t, Step(d, ops[0]), ops[1..]);
      assert ws == rest || (ws[1..] == rest && ws != []);
    }
  }

  // ----- what is written -----

  /** putc writes to the terminal of the running process, putc_user to the one on the monitor, if its page
      is mapped; a key goes to the one on the monitor. */
  lemma WritesGoTo(d: Desk, ch: byte, i: nat, t: TermId)
    requires d.Valid() && i < 127
    ensures Step(d, PutProcess(ch)).consoles[t]
         == if t == d.running && t in d.mapped then Apply(d.consoles[t], Print(ch)) else d.consoles[t]
    ensures Step(d, PutUser(ch)).consoles[t]
         == if t == d.visible && t in d.mapped then Apply(d.consoles[t], Print(ch)) else d.consoles[t]
    ensures Step(d, Key(i, ch)).consoles[t]
         == if t == d.visible then Apply(d.consoles[t], Store(i, ch)) else d.consoles[t]
  {
  }

  /** A line of text that is printed. */
  function Prints(w: seq<byte>): seq<Write> {
    seq(|w|, i requires 0 <= i < |w| => Print(w[i]))
  }

  /** The bytes of now from start on are the text, each character with the colour 7 behind it; all others are as before. */
  ghost predicate TextAt(now: seq<byte>, before: seq<byte>, start: int, w: seq<byte>) {
    && |now| == |before| == 4000 && 0 <= start && start + 2 * |w| <= 4000
    && (forall k | 0 <= k < |w| :: now[start + 2 * k] == w[k] && now[start + 2 * k + 1] == 7)
    && (forall b | 0 <= b < start || start + 2 * |w| <= b < 4000 :: now[b] == before[b])
  }

  lemma OneMoreCharacter(now: seq<byte>, middle: seq<byte>, before: seq<byte>, start: int, ch: byte, w: seq<byte>)
    requires TextAt(middle, before, start, [ch]) && TextAt(now, middle, start + 2, w)
    ensures TextAt(now, before, start, [ch] + w)
  {
    assert middle[start + 2 * 0] == ch && middle[start + 2 * 0 + 1] == 7;
    forall k | 0 <= k < |w| + 1
      ensures now[start + 2 * k] == ([ch] + w)[k] && now[start + 2 * k + 1] == 7
    {
      if k > 0 {
        assert now[start + 2 + 2 * (k - 1)] == w[k - 1] && now[start + 2 + 2 * (k - 1) + 1] == 7;
      }
    }
  }

  /** Text printed on a row goes to that row from the cursor on; the cursor follows, and goes back to the
      row's beginning at its end.  Nothing else changes. */
  lemma {:induction false} TextAppears(c: Console, w: seq<byte>)
    requires c.Valid() && c.x + |w| <= 80 && forall k | 0 <= k < |w| :: w[k] != 10 && w[k] != 13
    ensures var d := ApplyAll(c, Prints(w));
            && d.Valid() && d.x == (if c.x + |w| == 80 then 0 else c.x + |w|) && d.y == c.y && d.keys == c.keys
            && TextAt(d.screen, c.screen, 2 * (80 * c.y + c.x), w)
    decreases |w|
  {
    hide TextAt, Printed;
    if w == [] {
      NoText(c);
    } else {
      var e := Printed(c, w[0]);
      OneCharacter(c, w[0]);
      assert Prints(w)[0] == Print(w[0]) && Prints(w)[1..] == Prints(w[1..]);
      if |w| == 1 {
        assert Prints(w[1..]) == [] && w == [w[0]];
      } else {
        TextAppears(e, w[1..]);
        assert [w[0]] + w[1..] == w;
        OneMoreCharacter(ApplyAll(c, Prints(w)).screen, e.screen, c.screen, 2 * (80 * c.y + c.x), w[0], w[1..]);
      }
    }
  }

  lemma NoText(c: Console)
    requires c.Valid()
    ensures TextAt(c.screen, c.screen, 2 * (80 * c.y + c.x), [])
  {
  }

  lemma OneCharacter(c: Console, ch: byte)
    requires c.Valid() && ch != 10 && ch != 13
    ensures var d := Printed(c, ch);
            && d.Valid() && d == c.(screen := d.screen, x := if c.x == 79 then 0 else c.x + 1)
            && TextAt(d.screen, c.screen, 2 * (80 * c.y + c.x), [ch])
  {
  }

  /** A newline writes nothing; it leads to the beginning of the next row, or of the last one. */
  lemma NewlineMoves(c: Console, ch: byte)
    requires c.Valid() && (ch == 10 || ch == 13)
    ensures Apply(c, Print(ch)) == c.(x := 0, y := if c.y < 24 then c.y + 1 else 24)
  {
  }

  /** A key that is stored is in the key buffer at its place, and nothing else changes. */
  lemma KeyIsKept(c: Console, i: nat, ch: byte)
    requires c.Valid() && i < 127
    ensures var d := Apply(c, Store(i, ch));
            && d == c.(keys := d.keys) && |d.keys| == |c.keys| == 127 && d.keys[i] == ch
            && forall j | 0 <= j < 127 && j != i :: d.keys[j] == c.keys[j]
  {
  }

  // ----- the kernel -----

  /** terminal_t */
  datatype Terminal = Terminal(screenX: int, screenY: int, visible: bool, keyBuf: seq<byte>)

  class Kernel {
    const phys: array2<byte>
    /** The page table entries of the terminals' virtual pages. */
    const pageTable: array<int>
    const termArr: array<Terminal>
    const keyBuffer: array<byte>
    var currTerminal: TermId
    var currProcess: TermId

    ghost var desk: Desk
    ghost const Repr: set<object>

    /** The physical page that holds terminal t's screen. */
    function Home(t: TermId): int
      reads this
    {
      if t == currTerminal then VIDEO else t
    }

    ghost predicate Shaped()
      reads this
    {
      && Repr == {this, phys, pageTable, termArr, keyBuffer} && pageTable as object != keyBuffer
      && phys.Length0 == NUM_TERM + 1 && phys.Length1 == PAGE_BYTES
      && pageTable.Length == NUM_TERM && termArr.Length == NUM_TERM && keyBuffer.Length == MAX_INPUT_LENGTH
      && desk.Valid() && desk.visible == currTerminal && desk.running == currProcess
    }

    /** A mapped terminal page is video memory exactly when its terminal is on the
        monitor, and the terminal's own backing page otherwise. */
    ghost predicate MappingFollowsVisibility()
      requires pageTable.Length == NUM_TERM
      reads this, pageTable
    {
      forall t: TermId :: pageTable[t] == if t in desk.mapped then Home(t) else UNMAPPED
    }

    ghost predicate ScreensAtHome()
      requires Shaped()
      reads this, phys
    {
      forall t: TermId, k | 0 <= k < SCREEN_BYTES :: desk.consoles[t].screen[k] == phys[Home(t), k]
    }

    ghost predicate RecordsMatch()
      requires Shaped()
      reads this, termArr, keyBuffer
    {
      forall t: TermId ::
        && desk.consoles[t].x == termArr[t].screenX && desk.consoles[t].y == termArr[t].screenY
        && (termArr[t].visible <==> t == currTerminal) && |termArr[t].keyBuf| == MAX_INPUT_LENGTH
        && desk.consoles[t].keys == if t == currTerminal then keyBuffer[..] else termArr[t].keyBuf
    }

    ghost predicate Valid()
      reads this, phys, pageTable, termArr, keyBuffer
    {
      Shaped() && MappingFollowsVisibility() && ScreensAtHome() && RecordsMatch()
    }

    /** What the monitor shows, video memory, is the screen of the visible terminal. */
    lemma MonitorShowsVisible()
      requires Valid()
      ensures |desk.consoles| == NUM_TERM && |desk.consoles[currTerminal].screen| == SCREEN_BYTES
      ensures forall k | 0 <= k < SCREEN_BYTES :: phys[VIDEO, k] == desk.consoles[currTerminal].screen[k]
    {
      assert Home(currTerminal) == VIDEO;
    }

    /** init_terminal */
    constructor ()
      ensures Valid() && fresh(Repr)
      ensures currTerminal == 0 && currProcess == 0 && desk.mapped == {}
    {
      phys := new byte[NUM_TERM + 1, PAGE_BYTES]((_, _) => 0);
      pageTable := new int[NUM_TERM](_ => UNMAPPED);
      keyBuffer := new byte[MAX_INPUT_LENGTH](_ => 0);
      var noKeys := seq<byte>(MAX_INPUT_LENGTH, _ => 0);
      termArr := new Terminal[NUM_TERM](i => Terminal(0, 0, i == 0, noKeys));
      currTerminal, currProcess := 0, 0;
      var blank := Console(seq<byte>(SCREEN_BYTES, _ => 0), 0, 0, noKeys);
      desk := Desk(seq(NUM_TERM, _ => blank), 0, 0, {});
      Repr := {this, phys, pageTable, termArr, keyBuffer};
      new;
      assert keyBuffer[..] == noKeys;
    }

    // ----- switching -----

    /** memcpy of one screen between two mapped pages. */
    method CopyScreen(dst: int, src: int)
      requires phys.Length0 == NUM_TERM + 1 && phys.Length1 == PAGE_BYTES
      requires 0 <= dst <= NUM_TERM && 0 <= src <= NUM_TERM && dst != src
      modifies phys
      ensures forall p, k | 0 <= p <= NUM_TERM && 0 <= k < PAGE_BYTES ::
                phys[p, k] == if p == dst && k < SCREEN_BYTES then old(phys[src, k]) else old(phys[p, k])
    {
      var i := 0;
      while i < SCREEN_BYTES
        invariant 0 <= i <= SCREEN_BYTES
        invariant forall p, k | 0 <= p <= NUM_TERM && 0 <= k < PAGE_BYTES ::
                    phys[p, k] == if p == dst && k < i then old(phys[src, k]) else old(phys[p, k])
      {
        phys[dst, i] := phys[src, i];
        i := i + 1;
      }
    }

    method TerminalSaveState(idx: TermId)
      requires Shaped() && idx == currTerminal
      modifies phys, pageTable, termArr
      ensures Shaped()
      ensures pageTable[..] == old(pageTable[..])[idx := idx]
      ensures termArr[..] == old(termArr[..])[idx := old(termArr[idx]).(visible := false, keyBuf := keyBuffer[..])]
      ensures forall p, k | 0 <= p <= NUM_TERM && 0 <= k < PAGE_BYTES ::
                phys[p, k] == if p == idx && k < SCREEN_BYTES then old(phys[VIDEO, k]) else old(phys[p, k])
    {
      termArr[currTerminal] := termArr[currTerminal].(visible := false);
      termArr[idx] := termArr[idx].(keyBuf := keyBuffer[..]);
      pageTable[idx] := idx;  // remap_video
      CopyScreen(pageTable[idx], VIDEO);
    }

    method TerminalRestoreState(idx: TermId)
      requires Shaped() && |termArr[idx].keyBuf| == MAX_INPUT_LENGTH
      modifies this`currTerminal, this`desk, phys, pageTable, termArr, keyBuffer
      ensures currTerminal == idx && desk == old(desk).(visible := idx) && Shaped()
      ensures pageTable[..] == old(pageTable[..])[idx := idx]
      ensures termArr[..] == old(termArr[..])[idx := old(termArr[idx]).(visible := true)]
      ensures keyBuffer[..] == old(termArr[idx].keyBuf)
      ensures forall p, k | 0 <= p <= NUM_TERM && 0 <= k < PAGE_BYTES ::
                phys[p, k] == if p == VIDEO && k < SCREEN_BYTES then old(phys[idx, k]) else old(phys[p, k])
    {
      currTerminal := idx;
      desk := desk.(visible := idx);
      termArr[currTerminal] := termArr[currTerminal].(visible := true);
      var keys := termArr[idx].keyBuf;
      forall i | 0 <= i < MAX_INPUT_LENGTH {
        keyBuffer[i] := keys[i];
      }
      pageTable[idx] := idx;  // remap_video
      CopyScreen(VIDEO, pageTable[idx]);
    }

    /** The monitor shows another terminal: no console changes. */
    method TerminalSwitch(idx: nat) returns (r: int)
      requires Valid()
      modifies this`currTerminal, this`desk, phys, pageTable, termArr, keyBuffer
      ensures Valid() && desk == Step(old(desk), Switch(idx))
      ensures r == if idx != old(currTerminal) && idx >= NUM_TERM then -1 else 0
    {
      if idx == currTerminal {
        return 0;
      } else if idx >= NUM_TERM {
        return -1;
      }
      TerminalSaveState(currTerminal);
      TerminalRestoreState(idx);
      pageTable[idx] := VIDEO;
      desk := Step(old(desk), Switch(idx));
      return 0;
    }

    // ----- running another process -----

    /** scheduler_remap_video */
    method SchedulerRemapVideo(idx: TermId)
      requires Valid()
      modifies this`desk, pageTable
      ensures Valid() && desk == old(desk).(mapped := old(desk).mapped + {idx})
    {
      if idx == currTerminal {
        pageTable[idx] := VIDEO;
      } else {
        pageTable[idx] := idx;
      }
      desk := desk.(mapped := desk.mapped + {idx});
    }

    /** The scheduler's part in this: the next process writes to its own terminal. */
    method Reschedule(next: TermId)
      requires Valid()
      modifies this`currProcess, this`desk, pageTable
      ensures Valid() && desk == Step(old(desk), Schedule(next))
    {
      currProcess := next;
      desk := desk.(running := next);
      SchedulerRemapVideo(next);
    }

    // ----- output -----

    /** putc and putc_user, which differ in the terminal they address: characters go through
        the terminal's virtual page, and fault if it has not been mapped. */
    method PutcAt(t: TermId, c: byte) returns (fault: bool)
      requires Valid()
      modifies this`desk, phys, termArr
      ensures Valid() && (fault <==> t !in old(desk).mapped)
      ensures desk == if fault then old(desk)
                      else old(desk).(consoles := old(desk).consoles[t := Printed(old(desk).consoles[t], c)])
    {
      var page := pageTable[t];
      if page == UNMAPPED {
        return true;
      }
      var x, y := termArr[t].screenX, termArr[t].screenY;
      if c == 10 || c == 13 {
        if y == NUM_ROWS - 1 {
          y := NUM_ROWS - 1;
        } else {
          y := y + 1;
        }
        x := 0;
      } else {
        StoreCell(t, page, (NUM_COLS * y + x) * 2, c);
        x := x + 1;
        x := x % NUM_COLS;
        assert x / NUM_COLS == 0;
        y := (y + x / NUM_COLS) % NUM_ROWS;
      }
      StoreCursor(t, x, y);
      assert desk.consoles == old(desk).consoles[t := Printed(old(desk).consoles[t], c)];
      return false;
    }

    /** The two bytes of one cell, written through terminal t's page. */
    method StoreCell(t: TermId, page: int, a: int, c: byte)
      requires Valid() && page == Home(t) && 0 <= a && a + 1 < SCREEN_BYTES
      modifies this`desk, phys
      ensures Valid()
      ensures desk == old(desk).(consoles := old(desk).consoles[t :=
                old(desk).consoles[t].(screen := old(desk).consoles[t].screen[a := c][a + 1 := ATTRIB])])
    {
      phys[page, a] := c;
      phys[page, a + 1] := ATTRIB;
      desk := desk.(consoles := desk.consoles[t := desk.consoles[t].(screen := desk.consoles[t].screen[a := c][a + 1 := ATTRIB])]);
    }

    method StoreCursor(t: TermId, x: int, y: int)
      requires Valid() && 0 <= x < NUM_COLS && 0 <= y < NUM_ROWS
      modifies this`desk, termArr
      ensures Valid()
      ensures desk == old(desk).(consoles := old(desk).consoles[t := old(desk).consoles[t].(x := x, y := y)])
    {
      termArr[t] := termArr[t].(screenX := x, screenY := y);
      desk := desk.(consoles := desk.consoles[t := desk.consoles[t].(x := x, y := y)]);
    }

    /** A key stored into the key buffer. */
    method StoreKey(i: nat, ch: byte)
      requires Valid()
      modifies this`desk, keyBuffer
      ensures Valid() && desk == Step(old(desk), Key(i, ch))
    {
      if i < MAX_INPUT_LENGTH {
        keyBuffer[i] := ch;
        desk := Step(desk, Key(i, ch));
      }
    }

    /** Any interleaving of switches, turns and writes does to the terminals what it would do to private consoles. */
    method Interleave(ops: seq<Op>)
      requires Valid()
      modifies this, phys, pageTable, termArr, keyBuffer
      ensures Valid() && desk == Run(old(desk), ops)
    {
      var i := 0;
      while i < |ops|
        invariant 0 <= i <= |ops| && Valid() && Run(desk, ops[i..]) == Run(old(desk), ops)
        decreases |ops| - i
      {
        assert ops[i..][1..] == ops[i + 1..];
        match ops[i] {
          case Switch(idx) => var _ := TerminalSwitch(idx);
          case Schedule(next) => Reschedule(next);
          case PutProcess(ch) => var _ := PutcAt(currProcess, ch);
          case PutUser(ch) => var _ := PutcAt(currTerminal, ch);
          case Key(k, ch) => StoreKey(k, ch);
        }
        i := i + 1;
      }
    }
  }
}
