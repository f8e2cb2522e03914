/** Process bookkeeping of the kernel: execute and halt (mp3/student-distrib/syscall.c)
    and the round-robin scheduler (scheduler.c), as atomic steps. */
module Processes {

  const NUM_TERM := 3
  const PROGRAM_MAX := 6
  const NO_PCB := -1

  type TermId = t: int | 0 <= t < NUM_TERM

  /** The fields of a process control block that bookkeeping uses; a block lies in the
      kernel stack slot of its process, so a pointer to it is the number of that slot. */
  datatype Pcb = Pcb(pid: int, parentPid: int, parentPcb: int)

  /** How far execute gets with the program it is given. */
  datatype Program = NotExecutable | FailsToLoad | Loads

  // ----- the simple view: a stack of processes on every terminal -----

  /** Each terminal's processes, base shell first, and where each live process is found:
      its terminal and its position there. */
  datatype Forest = Forest(stacks: seq<seq<int>>, place: map<int, (TermId, nat)>) {
    /** The stacks are non-empty, start with distinct base shells, and share no process. */
    ghost predicate Valid() {
      && |stacks| == NUM_TERM
      && (forall t: TermId :: stacks[t] != [] && stacks[t][0] == t + 1)
      && (forall t: TermId, i | 0 <= i < |stacks[t]| :: stacks[t][i] in place && place[stacks[t][i]] == (t, i))
      && (forall p | p in place ::
            1 <= p <= PROGRAM_MAX && place[p].1 < |stacks[place[p].0]| && stacks[place[p].0][place[p].1] == p)
    }

    function Leaf(t: TermId): int
      requires |stacks| == NUM_TERM && stacks[t] != []
    {
      stacks[t][|stacks[t]| - 1]
    }

    function Pushed(t: TermId, pid: int): Forest
      requires |stacks| == NUM_TERM
    {
      Forest(stacks[t := stacks[t] + [pid]], place[pid := (t, |stacks[t]|)])
    }

    function Popped(t: TermId): Forest
      requires |stacks| == NUM_TERM && stacks[t] != []
    {
      Forest(stacks[t := stacks[t][..|stacks[t]| - 1]], place - {Leaf(t)})
    }
  }

  lemma PushKeepsForest(f: Forest, t: TermId, pid: int)
    requires f.Valid() && 1 <= pid <= PROGRAM_MAX && pid !in f.place
    ensures f.Pushed(t, pid).Valid() && |f.Pushed(t, pid).place| == |f.place| + 1
  {
    hide Forest.Pushed;
    var g := f.Pushed(t, pid);
    PushedParts(f, t, pid);
    assert g.place.Keys == f.place.Keys + {pid};
    forall u: TermId, i | 0 <= i < |g.stacks[u]|
      ensures g.stacks[u][i] in g.place && g.place[g.stacks[u][i]] == (u, i)
    {
      assert i < |f.stacks[u]| ==> f.place[f.stacks[u][i]] == (u, i);
    }
    forall p | p in g.place
      ensures g.place[p].1 < |g.stacks[g.place[p].0]| && g.stacks[g.place[p].0][g.place[p].1] == p
    {
      assert p != pid ==> g.place[p] == f.place[p];
    }
  }

  lemma PushedParts(f: Forest, t: TermId, pid: int)
    requires |f.stacks| == NUM_TERM
    ensures var g := f.Pushed(t, pid);
            |g.stacks| == NUM_TERM && g.stacks[t] == f.stacks[t] + [pid] && g.place == f.place[pid := (t, |f.stacks[t]|)]
            && forall u: TermId | u != t :: g.stacks[u] == f.stacks[u]
  {
  }

  lemma PopKeepsForest(f: Forest, t: TermId)
    requires f.Valid() && |f.stacks[t]| > 1
    ensures f.Popped(t).Valid() && |f.Popped(t).place| == |f.place| - 1
  {
    var g, leaf := f.Popped(t), f.Leaf(t);
    assert f.place[leaf] == (t, |f.stacks[t]| - 1);
    assert f.place.Keys == g.place.Keys + {leaf};
    forall u: TermId, i | 0 <= i < |g.stacks[u]|
      ensures g.stacks[u][i] in g.place && g.place[g.stacks[u][i]] == (u, i)
    {
      assert f.place[f.stacks[u][i]] == (u, i);
    }
    forall p | p in g.place
      ensures g.place[p].1 < |g.stacks[g.place[p].0]| && g.stacks[g.place[p].0][g.place[p].1] == p
    {
      assert g.place[p] == f.place[p];
    }
  }

  /** Execute and then halt: the stacks are as before. */
  lemma PopUndoesPush(f: Forest, t: TermId, pid: int)
    requires f.Valid() && pid !in f.place
    ensures f.Pushed(t, pid).Popped(t) == f
  {
    var g := f.Pushed(t, pid).Popped(t);
    assert g.stacks[t] == f.stacks[t];
    assert g.stacks == f.stacks;
    assert g.place == f.place;
  }

  /** Fewer than six processes leave a process number free. */
  lemma SomePidFree(f: Forest)
    requires |f.place| < PROGRAM_MAX
    ensures exists pid | 1 <= pid <= PROGRAM_MAX :: pid !in f.place
  {
    var all := {1, 2, 3, 4, 5, 6};
    assert |f.place.Keys - all| + |f.place.Keys * all| == |f.place.Keys|;
    assert |all - f.place.Keys| + |f.place.Keys * all| == |all|;
    var pid :| pid in all - f.place.Keys;
  }

  /** Exactly the processes 1 to 3 are base shells. */
  lemma BaseShellsAreFirst(f: Forest, t: TermId)
    requires f.Valid()
    ensures f.Leaf(t) <= NUM_TERM <==> |f.stacks[t]| == 1
  {
    var leaf := f.Leaf(t);
    assert f.place[leaf] == (t, |f.stacks[t]| - 1);
    if leaf <= NUM_TERM {
      assert f.stacks[leaf - 1][0] == leaf;
    }
  }

  // ----- the kernel's tables as values -----

  /** The process below p on its stack; a base shell is its own parent. */
  function ParentOf(f: Forest, p: int): int
    requires f.Valid() && p in f.place
  {
    var (t, i) := f.place[p];
    if i == 0 then p else f.stacks[t][i - 1]
  }

  /** The control blocks chain each process to its parent. */
  ghost predicate Chained(f: Forest, pcbs: seq<Pcb>)
    requires f.Valid() && |pcbs| == PROGRAM_MAX
  {
    forall p | p in f.place :: pcbs[p - 1] == Pcb(p, ParentOf(f, p), ParentOf(f, p) - 1)
  }

  /** The slots in use are those of the live processes. */
  ghost predicate SlotsInUse(f: Forest, pids: seq<int>)
    requires |pids| == PROGRAM_MAX
  {
    forall slot | 0 <= slot < PROGRAM_MAX :: pids[slot] != 0 <==> slot + 1 in f.place
  }

  ghost predicate LeavesRun(f: Forest, sched: seq<nat>)
    requires f.Valid() && |sched| == NUM_TERM
  {
    forall t: TermId :: sched[t] == f.Leaf(t)
  }

  /** Slots, counts, leaves and control blocks describe the forest f. */
  ghost predicate Accounts(f: Forest, pids: seq<int>, sched: seq<nat>, pcbs: seq<Pcb>, count: nat) {
    && |pids| == PROGRAM_MAX && |sched| == NUM_TERM && |pcbs| == PROGRAM_MAX
    && f.Valid() && Chained(f, pcbs)
    && count == |f.place| <= PROGRAM_MAX
    && SlotsInUse(f, pids) && LeavesRun(f, sched)
  }

  /** pcb is the control block of the process on top of terminal t's stack. */
  ghost predicate Running(f: Forest, t: TermId, pcb: int) {
    |f.stacks| == NUM_TERM && f.stacks[t] != [] && pcb == f.Leaf(t) - 1
  }

  lemma SlotsAfterPush(f: Forest, t: TermId, slot: nat, pids: seq<int>)
    requires |f.stacks| == NUM_TERM && slot < PROGRAM_MAX == |pids| && SlotsInUse(f, pids)
    ensures SlotsInUse(f.Pushed(t, slot + 1), pids[slot := 1])
  {
  }

  lemma ChainedAfterPush(f: Forest, t: TermId, slot: nat, pcbs: seq<Pcb>)
    requires f.Valid() && slot < PROGRAM_MAX && slot + 1 !in f.place && f.Pushed(t, slot + 1).Valid()
    requires |pcbs| == PROGRAM_MAX && Chained(f, pcbs)
    ensures Chained(f.Pushed(t, slot + 1), pcbs[slot := Pcb(slot + 1, f.Leaf(t), f.Leaf(t) - 1)])
  {
    hide ParentOf;
    PushKeepsParents(f, t, slot + 1);
  }

  lemma LeafPid(f: Forest, t: TermId, pcbs: seq<Pcb>)
    requires f.Valid() && |pcbs| == PROGRAM_MAX && Chained(f, pcbs)
    ensures 1 <= f.Leaf(t) <= PROGRAM_MAX && pcbs[f.Leaf(t) - 1].pid == f.Leaf(t)
  {
    hide ParentOf;
    LeafInPlace(f, t);
  }

  lemma ExecuteAccounts(f: Forest, pids: seq<int>, sched: seq<nat>, pcbs: seq<Pcb>, count: nat, t: TermId, slot: nat)
    requires Accounts(f, pids, sched, pcbs, count) && count < PROGRAM_MAX
    requires slot < PROGRAM_MAX && slot + 1 !in f.place
    ensures 1 <= f.Leaf(t) <= PROGRAM_MAX && pcbs[f.Leaf(t) - 1].pid == f.Leaf(t)
    ensures Accounts(f.Pushed(t, slot + 1), pids[slot := 1], sched[t := slot + 1],
                     pcbs[slot := Pcb(slot + 1, f.Leaf(t), f.Leaf(t) - 1)], count + 1)
    ensures Running(f.Pushed(t, slot + 1), t, slot)
  {
    hide Forest.Valid, Chained, SlotsInUse, LeavesRun;
    NotEmpty(f, t);
    PushKeepsForest(f, t, slot + 1);
    SlotsAfterPush(f, t, slot, pids);
    ChainedAfterPush(f, t, slot, pcbs);
    LeafPid(f, t, pcbs);
    LeavesAfterPush(f, t, slot + 1, sched);
  }

  lemma LeafInPlace(f: Forest, t: TermId)
    requires f.Valid()
    ensures f.Leaf(t) in f.place && f.place[f.Leaf(t)] == (t, |f.stacks[t]| - 1)
  {
  }

  lemma LeavesAfterPush(f: Forest, t: TermId, pid: nat, sched: seq<nat>)
    requires f.Valid() && f.Pushed(t, pid).Valid() && |sched| == NUM_TERM && LeavesRun(f, sched)
    ensures LeavesRun(f.Pushed(t, pid), sched[t := pid])
  {
  }

  /** A process that keeps its place keeps its parent, if the process below keeps its place too. */
  lemma SameParent(f: Forest, g: Forest, p: int)
    requires f.Valid() && g.Valid() && p in f.place && p in g.place && f.place[p] == g.place[p]
    requires var (t, i) := f.place[p]; i > 0 ==> f.stacks[t][i - 1] == g.stacks[t][i - 1]
    ensures ParentOf(f, p) == ParentOf(g, p)
  {
  }

  lemma PushKeepsParents(f: Forest, t: TermId, pid: int)
    requires f.Valid() && pid !in f.place && f.Pushed(t, pid).Valid()
    ensures ParentOf(f.Pushed(t, pid), pid) == f.Leaf(t)
    ensures forall p | p in f.place :: ParentOf(f.Pushed(t, pid), p) == ParentOf(f, p)
  {
    hide ParentOf, Forest.Valid;
    NewParent(f, t, pid);
    forall p | p in f.place
      ensures ParentOf(f.Pushed(t, pid), p) == ParentOf(f, p)
    {
      PushKeepsParent(f, t, pid, p);
    }
  }

  lemma NewParent(f: Forest, t: TermId, pid: int)
    requires f.Valid() && pid !in f.place && f.Pushed(t, pid).Valid()
    ensures |f.stacks| == NUM_TERM && f.stacks[t] != [] && pid in f.Pushed(t, pid).place
    ensures ParentOf(f.Pushed(t, pid), pid) == f.Leaf(t)
    ensures forall p | p in f.place :: p in f.Pushed(t, pid).place
  {
  }

  lemma PushKeepsParent(f: Forest, t: TermId, pid: int, p: int)
    requires f.Valid() && pid !in f.place && f.Pushed(t, pid).Valid() && p in f.place
    ensures p in f.Pushed(t, pid).place && ParentOf(f.Pushed(t, pid), p) == ParentOf(f, p)
  {
    assert f.Pushed(t, pid).place[p] == f.place[p];
    SameParent(f, f.Pushed(t, pid), p);
  }

  lemma PopKeepsParents(f: Forest, t: TermId)
    requires f.Valid() && |f.stacks[t]| > 1 && f.Popped(t).Valid()
    ensures forall p | p in f.Popped(t).place :: ParentOf(f.Popped(t), p) == ParentOf(f, p)
    ensures f.Leaf(t) in f.place && ParentOf(f, f.Leaf(t)) == f.Popped(t).Leaf(t)
  {
    hide ParentOf;
    LeafParent(f, t);
    forall p | p in f.Popped(t).place
      ensures ParentOf(f.Popped(t), p) == ParentOf(f, p)
    {
      PopKeepsParent(f, t, p);
    }
  }

  lemma LeafParent(f: Forest, t: TermId)
    requires f.Valid() && |f.stacks[t]| > 1
    ensures f.Leaf(t) in f.place && ParentOf(f, f.Leaf(t)) == f.Popped(t).Leaf(t)
  {
    LeafInPlace(f, t);
  }

  lemma PopKeepsParent(f: Forest, t: TermId, p: int)
    requires f.Valid() && |f.stacks[t]| > 1 && f.Popped(t).Valid() && p in f.Popped(t).place
    ensures p in f.place && ParentOf(f.Popped(t), p) == ParentOf(f, p)
  {
    var g := f.Popped(t);
    assert g.place[p] == f.place[p] && g.place[p].1 < |g.stacks[g.place[p].0]|;
    SameParent(f, g, p);
  }

  lemma LeavesAfterPop(f: Forest, t: TermId, sched: seq<nat>, parent: nat)
    requires f.Valid() && |f.stacks[t]| > 1 && f.Popped(t).Valid() && |sched| == NUM_TERM && LeavesRun(f, sched)
    requires parent == f.Popped(t).Leaf(t)
    ensures LeavesRun(f.Popped(t), sched[t := parent])
  {
  }

  lemma PopKeepsTables(f: Forest, t: TermId, pids: seq<int>, pcbs: seq<Pcb>)
    requires f.Valid() && |f.stacks[t]| > 1 && f.Popped(t).Valid() && |pids| == |pcbs| == PROGRAM_MAX
    requires SlotsInUse(f, pids) && Chained(f, pcbs)
    ensures 1 <= f.Leaf(t) <= PROGRAM_MAX
    ensures SlotsInUse(f.Popped(t), pids[f.Leaf(t) - 1 := 0]) && Chained(f.Popped(t), pcbs)
    ensures var pcb := pcbs[f.Leaf(t) - 1];
            pcb.pid == f.Leaf(t) && pcb.parentPid == f.Popped(t).Leaf(t) >= 1 && pcb.parentPcb == pcb.parentPid - 1
  {
    hide ParentOf;
    LeafInPlace(f, t);
    LeafInPlace(f.Popped(t), t);
    PopKeepsParents(f, t);
  }

  lemma HaltAccounts(f: Forest, pids: seq<int>, sched: seq<nat>, pcbs: seq<Pcb>, count: nat, t: TermId)
    requires Accounts(f, pids, sched, pcbs, count) && |f.stacks[t]| > 1
    ensures var leaf := f.Leaf(t);
            && 1 <= leaf <= PROGRAM_MAX && count > 0
            && var pcb := pcbs[leaf - 1];
            && pcb.pid == leaf && pcb.parentPid >= 1
            && Accounts(f.Popped(t), pids[leaf - 1 := 0], sched[t := pcb.parentPid], pcbs, count - 1)
            && Running(f.Popped(t), t, pcb.parentPcb) && pcb.parentPcb == pcb.parentPid - 1
  {
    hide Forest.Valid, Chained, SlotsInUse, LeavesRun;
    NotEmpty(f, t);
    PopKeepsForest(f, t);
    PopKeepsTables(f, t, pids, pcbs);
    NotEmpty(f.Popped(t), t);
    LeavesAfterPop(f, t, sched, f.Popped(t).Leaf(t));
  }

  lemma NotEmpty(f: Forest, t: TermId)
    requires f.Valid()
    ensures |f.stacks| == NUM_TERM && f.stacks[t] != []
  {
  }

  /** The control block of a leaf names its own process. */
  lemma LeafBlock(f: Forest, pids: seq<int>, sched: seq<nat>, pcbs: seq<Pcb>, count: nat, t: TermId)
    requires Accounts(f, pids, sched, pcbs, count)
    ensures sched[t] == f.Leaf(t) && 1 <= f.Leaf(t) <= PROGRAM_MAX && pcbs[f.Leaf(t) - 1].pid == f.Leaf(t)
    ensures Running(f, t, f.Leaf(t) - 1)
    ensures f.Leaf(t) <= NUM_TERM <==> |f.stacks[t]| == 1
  {
    BaseShellsAreFirst(f, t);
    assert f.place[f.Leaf(t)] == (t, |f.stacks[t]| - 1);
  }

  // ----- chains of parents -----

  /** The slot reached from the given one after n steps from a control block to its parent's. */
  ghost function Climbed(pcbs: seq<Pcb>, slot: int, n: nat): int {
    if n == 0 then slot
    else
      var below := Climbed(pcbs, slot, n - 1);
      if 0 <= below < |pcbs| then pcbs[below].parentPcb else NO_PCB
  }

  /** The control blocks' parent pointers lead down a stack, and stay at its bottom. */
  ghost predicate LeadsDown(pcbs: seq<Pcb>, stack: seq<int>) {
    stack != [] && forall i | 0 <= i < |stack| :: Linked(pcbs, stack, i)
  }

  ghost predicate Linked(pcbs: seq<Pcb>, stack: seq<int>, i: nat)
    requires i < |stack|
  {
    1 <= stack[i] <= |pcbs| && pcbs[stack[i] - 1].parentPcb == stack[if i == 0 then 0 else i - 1] - 1
  }

  lemma {:induction false} ClimbedDown(pcbs: seq<Pcb>, stack: seq<int>, n: nat)
    requires LeadsDown(pcbs, stack)
    ensures Climbed(pcbs, stack[|stack| - 1] - 1, n) == stack[if n < |stack| then |stack| - 1 - n else 0] - 1
  {
    if n > 0 {
      ClimbedDown(pcbs, stack, n - 1);
      assert Linked(pcbs, stack, if n - 1 < |stack| then |stack| - n else 0);
    }
  }

  /** The slot lies on the chain of parents of terminal t's scheduled process. */
  ghost predicate OnChain(sched: seq<nat>, pcbs: seq<Pcb>, t: TermId, slot: int)
    requires |sched| == NUM_TERM
  {
    exists n: nat :: Climbed(pcbs, Scheduled(sched, t), n) == slot
  }

  ghost function Scheduled(sched: seq<nat>, t: TermId): int
    requires |sched| == NUM_TERM
  {
    sched[t] as int - 1
  }

  /** The chain of parent pointers from a terminal's scheduled process meets the processes of that
      terminal's stack one by one, from the leaf to the base shell, where it stays. */
  lemma ChainGoesDownStack(f: Forest, pids: seq<int>, sched: seq<nat>, pcbs: seq<Pcb>, count: nat, t: TermId, n: nat)
    requires Accounts(f, pids, sched, pcbs, count)
    ensures var height := |f.stacks[t]|;
            Climbed(pcbs, Scheduled(sched, t), n) == if n < height then f.stacks[t][height - 1 - n] - 1 else t
  {
    hide Accounts, Forest.Valid, LeadsDown, Climbed;
    StackLeadsDown(f, pids, sched, pcbs, count, t);
    ClimbedDown(pcbs, f.stacks[t], n);
  }

  lemma StackLeadsDown(f: Forest, pids: seq<int>, sched: seq<nat>, pcbs: seq<Pcb>, count: nat, t: TermId)
    requires Accounts(f, pids, sched, pcbs, count)
    ensures |sched| == |f.stacks| == NUM_TERM && f.stacks[t] != [] && f.stacks[t][0] - 1 == t
    ensures LeadsDown(pcbs, f.stacks[t])
    ensures Scheduled(sched, t) == f.stacks[t][|f.stacks[t]| - 1] - 1
  {
    assert sched[t] == f.Leaf(t);
    forall i | 0 <= i < |f.stacks[t]|
      ensures Linked(pcbs, f.stacks[t], i)
    {
      LinkedAt(f, pcbs, t, i);
    }
  }

  lemma LinkedAt(f: Forest, pcbs: seq<Pcb>, t: TermId, i: nat)
    requires f.Valid() && |pcbs| == PROGRAM_MAX && Chained(f, pcbs) && i < |f.stacks[t]|
    ensures Linked(pcbs, f.stacks[t], i)
  {
    hide Forest.Valid;
    PlacedThere(f, t, i);
  }

  lemma PlacedThere(f: Forest, t: TermId, i: nat)
    requires f.Valid() && i < |f.stacks[t]|
    ensures |f.stacks| == NUM_TERM && 1 <= f.stacks[t][i] <= PROGRAM_MAX
    ensures f.stacks[t][i] in f.place && f.place[f.stacks[t][i]] == (t, i)
  {
  }

  /** A chain that leads down a stack meets exactly the processes on it. */
  lemma ChainIsStack(sched: seq<nat>, pcbs: seq<Pcb>, stack: seq<int>, t: TermId, slot: int)
    requires |sched| == NUM_TERM && LeadsDown(pcbs, stack) && Scheduled(sched, t) == stack[|stack| - 1] - 1
    ensures OnChain(sched, pcbs, t, slot) <==> slot + 1 in stack
  {
    hide Climbed;
    if OnChain(sched, pcbs, t, slot) {
      var n: nat :| Climbed(pcbs, Scheduled(sched, t), n) == slot;
      ClimbedDown(pcbs, stack, n);
    } else if slot + 1 in stack {
      var i :| 0 <= i < |stack| && stack[i] == slot + 1;
      ClimbedDown(pcbs, stack, |stack| - 1 - i);
    }
  }

  lemma OnChainMeansOnStack(f: Forest, pids: seq<int>, sched: seq<nat>, pcbs: seq<Pcb>, count: nat,
                            t: TermId, slot: int)
    requires Accounts(f, pids, sched, pcbs, count)
    ensures OnChain(sched, pcbs, t, slot) <==> slot + 1 in f.stacks[t]
    ensures slot + 1 in f.stacks[t] <==> slot + 1 in f.place && f.place[slot + 1].0 == t
  {
    hide Accounts, Forest.Valid, LeadsDown, Climbed;
    AtMostSix(f, pids, sched, pcbs, count);
    StackLeadsDown(f, pids, sched, pcbs, count, t);
    OnStackIsInPlace(f, t, slot + 1);
    ChainIsStack(sched, pcbs, f.stacks[t], t, slot);
  }

  lemma OnStackIsInPlace(f: Forest, t: TermId, p: int)
    requires f.Valid()
    ensures |f.stacks| == NUM_TERM
    ensures p in f.stacks[t] <==> p in f.place && f.place[p].0 == t
  {
    if p in f.stacks[t] {
      var i :| 0 <= i < |f.stacks[t]| && f.stacks[t][i] == p;
    }
  }

  lemma OnlyBaseIsOwnParent(f: Forest, pids: seq<int>, sched: seq<nat>, pcbs: seq<Pcb>, count: nat, p: int)
    requires Accounts(f, pids, sched, pcbs, count) && p in f.place
    ensures 1 <= p <= PROGRAM_MAX && (pcbs[p - 1].parentPcb == p - 1 <==> p - 1 == f.place[p].0)
  {
    assert pcbs[p - 1].parentPcb == ParentOf(f, p) - 1;
    ParentDiffers(f, p);
  }

  lemma ParentDiffers(f: Forest, p: int)
    requires f.Valid() && p in f.place
    ensures ParentOf(f, p) == p <==> p - 1 == f.place[p].0
  {
    var t, i := f.place[p].0, f.place[p].1;
    assert f.stacks[t][i] == p && f.stacks[t][0] - 1 == t;
    if i > 0 {
      assert f.place[f.stacks[t][i - 1]] == (t, i - 1) && f.place[f.stacks[t][0]] == (t, 0);
    }
  }

  /** The three chains of parents share no process, and together meet exactly the slots in use;
      each ends in its terminal's base shell, the only process on it that is its own parent. */
  lemma ChainsPartitionSlots(f: Forest, pids: seq<int>, sched: seq<nat>, pcbs: seq<Pcb>, count: nat, slot: nat)
    requires Accounts(f, pids, sched, pcbs, count) && slot < PROGRAM_MAX
    ensures pids[slot] != 0 <==> exists t: TermId :: OnChain(sched, pcbs, t, slot)
    ensures forall t: TermId, u: TermId | OnChain(sched, pcbs, t, slot) && OnChain(sched, pcbs, u, slot) :: t == u
    ensures forall t: TermId | OnChain(sched, pcbs, t, slot) :: pcbs[slot].parentPcb == slot <==> slot == t
  {
    forall t: TermId
      ensures OnChain(sched, pcbs, t, slot) <==> slot + 1 in f.place && f.place[slot + 1].0 == t
    {
      OnChainMeansOnStack(f, pids, sched, pcbs, count, t, slot);
    }
    if slot + 1 in f.place {
      assert OnChain(sched, pcbs, f.place[slot + 1].0, slot);
      OnlyBaseIsOwnParent(f, pids, sched, pcbs, count, slot + 1);
    }
  }

  /** In consistent tables the parent of one terminal's scheduled process is never scheduled for another. */
  lemma ParentOfLeafIsNoLeaf(f: Forest, pids: seq<int>, sched: seq<nat>, pcbs: seq<Pcb>, count: nat,
                             t: TermId, u: TermId)
    requires Accounts(f, pids, sched, pcbs, count) && t != u && sched[u] as int - 1 != u
    ensures 1 <= sched[u] <= PROGRAM_MAX && pcbs[sched[u] - 1].parentPid != sched[t]
  {
    hide Forest.Valid, SlotsInUse;
    LeafInPlace(f, t);
    LeafInPlace(f, u);
    BaseOf(f, u);
    var height := |f.stacks[u]|;
    PlacedThere(f, u, height - 1);
    assert height > 1;
    PlacedThere(f, u, height - 2);
    assert ParentOf(f, f.Leaf(u)) == f.stacks[u][height - 2];
  }

  /** Entering the new process under another terminal's number leaves tables that describe no
      stacks at all: the new process and its parent would both be scheduled. */
  lemma NoStacksFit(f: Forest, pids: seq<int>, sched: seq<nat>, pcbs: seq<Pcb>, count: nat,
                    t: TermId, u: TermId, slot: nat, g: Forest, pids': seq<int>, count': nat)
    requires Accounts(f, pids, sched, pcbs, count) && t != u
    requires slot < PROGRAM_MAX && slot + 1 !in f.place
    ensures !Accounts(g, pids', sched[u := slot + 1], pcbs[slot := Pcb(slot + 1, f.Leaf(t), f.Leaf(t) - 1)], count')
  {
    var sched', pcbs' := sched[u := slot + 1], pcbs[slot := Pcb(slot + 1, f.Leaf(t), f.Leaf(t) - 1)];
    assert sched'[t] == f.Leaf(t) && pcbs'[sched'[u] - 1].parentPid == f.Leaf(t);
    assert f.stacks[u][0] - 1 == u && f.stacks[u][0] in f.place;
    if Accounts(g, pids', sched', pcbs', count') {
      ParentOfLeafIsNoLeaf(g, pids', sched', pcbs', count', t, u);
    }
  }

  /** What happens to the old leaf of that other terminal: it lies on no chain any more, so
      neither the scheduler nor the end of another process ever gets back to it. */
  lemma LeafLost(f: Forest, pids: seq<int>, sched: seq<nat>, pcbs: seq<Pcb>, count: nat,
                 t: TermId, u: TermId, slot: nat, w: TermId)
    requires Accounts(f, pids, sched, pcbs, count) && t != u
    requires slot < PROGRAM_MAX && slot + 1 !in f.place
    ensures !OnChain(sched[u := slot + 1], pcbs[slot := Pcb(slot + 1, f.Leaf(t), f.Leaf(t) - 1)], w, f.Leaf(u) - 1)
  {
    hide Forest.Valid, LeadsDown, Climbed, OnChain, Chained, SlotsInUse, LeavesRun;
    NotEmpty(f, t);
    NotEmpty(f, u);
    LeafInPlace(f, u);
    var sched', pcbs' := sched[u := slot + 1], pcbs[slot := Pcb(slot + 1, f.Leaf(t), f.Leaf(t) - 1)];
    var from := if w == u then t else w;
    StackLeadsDown(f, pids, sched, pcbs, count, from);
    OnStackIsInPlace(f, from, slot + 1);
    OnStackIsInPlace(f, from, f.Leaf(u));
    StillLeadsDown(pcbs, f.stacks[from], slot, pcbs'[slot]);
    if w == u {
      OneOnTop(pcbs', f.stacks[t], slot);
      ChainIsStack(sched', pcbs', f.stacks[t] + [slot + 1], w, f.Leaf(u) - 1);
    } else {
      ChainIsStack(sched', pcbs', f.stacks[w], w, f.Leaf(u) - 1);
    }
  }

  /** A control block that is not on the stack does not matter to it. */
  lemma StillLeadsDown(pcbs: seq<Pcb>, stack: seq<int>, slot: nat, pcb: Pcb)
    requires LeadsDown(pcbs, stack) && slot < |pcbs| && slot + 1 !in stack
    ensures LeadsDown(pcbs[slot := pcb], stack)
  {
    var pcbs' := pcbs[slot := pcb];
    forall i | 0 <= i < |stack|
      ensures Linked(pcbs', stack, i)
    {
      assert Linked(pcbs, stack, i);
    }
  }

  lemma OneOnTop(pcbs: seq<Pcb>, stack: seq<int>, slot: nat)
    requires LeadsDown(pcbs, stack) && slot < |pcbs| && pcbs[slot].parentPcb == stack[|stack| - 1] - 1
    ensures LeadsDown(pcbs, stack + [slot + 1])
  {
    var higher := stack + [slot + 1];
    forall i | 0 <= i < |higher|
      ensures Linked(pcbs, higher, i)
    {
      assert i < |stack| ==> Linked(pcbs, stack, i);
    }
  }

  /** The forest determines the tables, up to the contents of unused control blocks. */
  lemma SameForestSameTables(f: Forest, pids: seq<int>, sched: seq<nat>, pcbs: seq<Pcb>, count: nat,
                             pids': seq<int>, sched': seq<nat>, pcbs': seq<Pcb>, count': nat)
    requires Accounts(f, pids, sched, pcbs, count) && Accounts(f, pids', sched', pcbs', count')
    ensures count == count' && sched == sched'
    ensures forall k | 0 <= k < PROGRAM_MAX :: pids'[k] != 0 <==> pids[k] != 0
    ensures forall p | p in f.place :: 1 <= p <= PROGRAM_MAX && pcbs[p - 1] == pcbs'[p - 1]
  {
    forall k | 0 <= k < NUM_TERM
      ensures sched[k] == sched'[k]
    {
      var t: TermId := k;
      assert sched[t] == f.Leaf(t) == sched'[t];
    }
  }

  lemma SomeSlotFree(f: Forest, pids: seq<int>, sched: seq<nat>, pcbs: seq<Pcb>, count: nat) returns (slot: nat)
    requires Accounts(f, pids, sched, pcbs, count) && count < PROGRAM_MAX
    ensures slot < PROGRAM_MAX == |pids| && pids[slot] == 0
  {
    SomePidFree(f);
    var pid :| 1 <= pid <= PROGRAM_MAX && pid !in f.place;
    slot := pid - 1;
  }

  lemma FirstFreeSlot(f: Forest, pids: seq<int>, sched: seq<nat>, pcbs: seq<Pcb>, count: nat, slot: nat)
    requires Accounts(f, pids, sched, pcbs, count) && slot < PROGRAM_MAX && pids[slot] == 0
    requires forall k | 0 <= k < slot :: pids[k] != 0
    ensures slot + 1 == FirstFree(f, 1)
  {
    assert slot + 1 !in f.place;
    forall q | 1 <= q <= slot
      ensures q in f.place
    {
      assert pids[q - 1] != 0;
    }
  }

  lemma AtMostSix(f: Forest, pids: seq<int>, sched: seq<nat>, pcbs: seq<Pcb>, count: nat)
    requires Accounts(f, pids, sched, pcbs, count)
    ensures count == |f.place| <= PROGRAM_MAX && f.Valid()
  {
  }

  lemma FirstFreeIsNew(f: Forest, pid: nat, t: TermId, u: TermId)
    requires f.Valid() && pid == FirstFree(f, 1) <= PROGRAM_MAX
    ensures pid !in f.place && !Running(f, t, pid - 1)
  {
    assert f.place[f.Leaf(t)] == (t, |f.stacks[t]| - 1);
  }

  // ----- runs of the simple view -----

  /** The process stacks, the terminal whose turn it is, the terminal on the monitor, and
      whether the running process's own frame is mapped. */
  datatype View = View(forest: Forest, running: TermId, shown: TermId, ownFrame: bool)

  datatype Op = Tick | Exec(program: Program) | Halt | Switch(idx: nat)

  /** The first process number from pid on that no live process has. */
  ghost function FirstFree(f: Forest, pid: nat): (free: nat)
    ensures pid <= free
    ensures forall q | pid <= q < free :: q in f.place
    ensures free <= PROGRAM_MAX ==> free !in f.place
    decreases PROGRAM_MAX - pid
  {
    if pid <= PROGRAM_MAX && pid in f.place then FirstFree(f, pid + 1) else pid
  }

  /** What an operation does to the view.  A new process is entered for the terminal on the
      monitor; the control blocks follow only if that is also the terminal whose turn it is. */
  ghost function Step(v: View, op: Op): View
    requires v.forest.Valid()
  {
    match op
    case Tick => v.(running := (v.running + 1) % NUM_TERM, ownFrame := true)
    case Exec(program) =>
      if |v.forest.place| >= PROGRAM_MAX || program.NotExecutable? then v
      else if program.FailsToLoad? then v.(ownFrame := false)
      else v.(forest := v.forest.Pushed(v.shown, FirstFree(v.forest, 1)), ownFrame := true)
    case Halt =>
      if |v.forest.stacks[v.running]| == 1 then v
      else v.(forest := v.forest.Popped(v.running), ownFrame := true)
    case Switch(idx) => if idx < NUM_TERM then v.(shown := idx) else v
  }

  lemma StepKeepsForest(v: View, op: Op)
    requires v.forest.Valid()
    ensures Step(v, op).forest.Valid()
  {
    match op {
      case Exec(program) =>
        if |v.forest.place| < PROGRAM_MAX {
          FirstFreeIsPid(v.forest);
          PushKeepsForest(v.forest, v.shown, FirstFree(v.forest, 1));
        }
      case Halt =>
        if |v.forest.stacks[v.running]| > 1 {
          PopKeepsForest(v.forest, v.running);
        }
      case _ =>
    }
  }

  lemma FirstFreeIsPid(f: Forest)
    requires f.Valid() && |f.place| < PROGRAM_MAX
    ensures 1 <= FirstFree(f, 1) <= PROGRAM_MAX
  {
    SomePidFree(f);
  }

  /** The views along a run, for runs that start programs only on the terminal on the monitor. */
  ghost predicate Foreground(v: View, ops: seq<Op>)
    requires v.forest.Valid()
    decreases |ops|
  {
    ops == [] ||
    var next := Step(v, ops[0]);
    StepKeepsForest(v, ops[0]);
    && (ops[0] == Exec(Loads) && |v.forest.place| < PROGRAM_MAX ==> v.running == v.shown)
    && Foreground(next, ops[1..])
  }

  ghost function Steps(v: View, ops: seq<Op>): (end: View)
    requires v.forest.Valid()
    ensures end.forest.Valid()
    decreases |ops|
  {
    if ops == [] then v
    else
      StepKeepsForest(v, ops[0]);
      Steps(Step(v, ops[0]), ops[1..])
  }

  /** Execute on the terminal that is on the monitor and has its turn, and halt again: the stacks are as before. */
  lemma HaltUndoesExecute(v: View)
    requires v.forest.Valid() && |v.forest.place| < PROGRAM_MAX && v.running == v.shown
    ensures var u := Step(v, Exec(Loads));
            u.forest.Valid() && Step(u, Halt) == v.(ownFrame := true)
  {
    var u := Step(v, Exec(Loads));
    FirstFreeIsPid(v.forest);
    StepKeepsForest(v, Exec(Loads));
    PopUndoesPush(v.forest, v.running, FirstFree(v.forest, 1));
    assert u.forest.stacks[v.running] == v.forest.stacks[v.running] + [FirstFree(v.forest, 1)];
  }

  /** Terminal t has the same processes all along the run. */
  ghost predicate Undisturbed(v: View, ops: seq<Op>, t: TermId)
    requires v.forest.Valid()
    decreases |ops|
  {
    ops == [] ||
    var next := Step(v, ops[0]);
    StepKeepsForest(v, ops[0]);
    next.forest.stacks[t] == v.forest.stacks[t] && Undisturbed(next, ops[1..], t)
  }

  /** No program starts while t is on the monitor, and none above its base shell halts in t's turn. */
  ghost predicate NeverActs(v: View, ops: seq<Op>, t: TermId)
    requires v.forest.Valid()
    decreases |ops|
  {
    ops == [] ||
    var next := Step(v, ops[0]);
    StepKeepsForest(v, ops[0]);
    && (ops[0] == Exec(Loads) && |v.forest.place| < PROGRAM_MAX ==> v.shown != t)
    && (ops[0].Halt? && |v.forest.stacks[v.running]| > 1 ==> v.running != t)
    && NeverActs(next, ops[1..], t)
  }

  lemma StepKeepsStack(v: View, op: Op, t: TermId)
    requires v.forest.Valid()
    ensures |Step(v, op).forest.stacks| == NUM_TERM
    ensures Step(v, op).forest.stacks[t] == v.forest.stacks[t] <==>
              && (op == Exec(Loads) && |v.forest.place| < PROGRAM_MAX ==> v.shown != t)
              && (op.Halt? && |v.forest.stacks[v.running]| > 1 ==> v.running != t)
  {
    if Step(v, op).forest.stacks[t] == v.forest.stacks[t] {
      assert |Step(v, op).forest.stacks[t]| == |v.forest.stacks[t]|;
    }
  }

  /** With Kernel.Run, what this says of the stacks holds of the kernel: over every run that starts
      programs only in the foreground, a terminal's processes stay the same throughout exactly when
      no program starts or ends on that terminal. */
  lemma {:induction false} UndisturbedExactly(v: View, ops: seq<Op>, t: TermId)
    requires v.forest.Valid() && Foreground(v, ops)
    ensures Undisturbed(v, ops, t) <==> NeverActs(v, ops, t)
    decreases |ops|
  {
    if ops != [] {
      StepKeepsForest(v, ops[0]);
      StepKeepsStack(v, ops[0], t);
      hide Forest.Valid, Step;
      UndisturbedExactly(Step(v, ops[0]), ops[1..], t);
    }
  }

  /** The running process has its own frame mapped all along the run. */
  ghost predicate OwnFrameThroughout(v: View, ops: seq<Op>)
    requires v.forest.Valid()
    decreases |ops|
  {
    v.ownFrame && (ops == [] ||
    var next := Step(v, ops[0]);
    StepKeepsForest(v, ops[0]);
    OwnFrameThroughout(next, ops[1..]))
  }

  /** Programs that fail to load are executed only while six processes are live. */
  ghost predicate LoadsFailOnlyWhenFull(v: View, ops: seq<Op>)
    requires v.forest.Valid()
    decreases |ops|
  {
    ops == [] ||
    var next := Step(v, ops[0]);
    StepKeepsForest(v, ops[0]);
    (ops[0] == Exec(FailsToLoad) ==> |v.forest.place| >= PROGRAM_MAX) && LoadsFailOnlyWhenFull(next, ops[1..])
  }

  /** Likewise for the kernel: the process that runs has its own frame throughout a run exactly when it has it at first
      and execute does not get as far as a program that fails to load. */
  lemma {:induction false} OwnFrameExactly(v: View, ops: seq<Op>)
    requires v.forest.Valid() && Foreground(v, ops)
    ensures OwnFrameThroughout(v, ops) <==> v.ownFrame && LoadsFailOnlyWhenFull(v, ops)
    decreases |ops|
  {
    if ops != [] {
      StepKeepsForest(v, ops[0]);
      OwnFrameExactly(Step(v, ops[0]), ops[1..]);
    }
  }

  // ----- whose turn it is -----

  /** How many timer interrupts there are in a run. */
  function Ticks(ops: seq<Op>): nat {
    if ops == [] then 0 else (if ops[0].Tick? then 1 else 0) + Ticks(ops[1..])
  }

  /** The terminal on the monitor after a run: the last one switched to that exists. */
  function ShownAfter(shown: TermId, ops: seq<Op>): TermId
    decreases |ops|
  {
    if ops == [] then shown
    else ShownAfter(if ops[0].Switch? && ops[0].idx < 3 then ops[0].idx else shown, ops[1..])
  }

  /** Over every run the turn passes on by one terminal with each timer interrupt, and only then; and the
      monitor shows the terminal last switched to. */
  lemma {:induction false} TurnsRotate(v: View, ops: seq<Op>)
    requires v.forest.Valid()
    ensures Steps(v, ops).running == (v.running + Ticks(ops)) % 3
    ensures Steps(v, ops).shown == ShownAfter(v.shown, ops)
    decreases |ops|
  {
    hide Forest.Valid, Step;
    if ops != [] {
      StepKeepsForest(v, ops[0]);
      OneTurn(v, ops[0]);
      TurnsRotate(Step(v, ops[0]), ops[1..]);
      Rotated(v.running, if ops[0].Tick? then 1 else 0, Ticks(ops[1..]));
    }
  }

  lemma Rotated(r: nat, a: nat, n: nat)
    ensures ((r + a) % 3 + n) % 3 == (r + (a + n)) % 3
  {
  }

  lemma OneTurn(v: View, op: Op)
    requires v.forest.Valid()
    ensures Step(v, op).running == (v.running + if op.Tick? then 1 else 0) % 3
    ensures Step(v, op).shown == if op.Switch? && op.idx < 3 then op.idx else v.shown
  {
  }

  lemma {:induction false} TicksAdd(a: seq<Op>, b: seq<Op>)
    ensures Ticks(a + b) == Ticks(a) + Ticks(b)
    decreases |a|
  {
    if a == [] {
      assert a + b == b;
    } else {
      TicksAdd(a[1..], b);
      assert (a + b)[1..] == a[1..] + b;
    }
  }

  /** The position of the n-th timer interrupt. */
  lemma {:induction false} TickNumber(ops: seq<Op>, n: nat) returns (k: nat)
    requires 1 <= n <= Ticks(ops)
    ensures k < |ops| && ops[k].Tick? && Ticks(ops[..k]) == n - 1
    decreases |ops|
  {
    if ops[0].Tick? && n == 1 {
      assert ops[..0] == [];
      return 0;
    }
    var later := TickNumber(ops[1..], if ops[0].Tick? then n - 1 else n);
    k := later + 1;
    assert ops[..k][1..] == ops[1..][..later] && ops[..k][0] == ops[0];
  }

  /** The terminal whose turn it is after the step at position k. */
  ghost function TurnAfter(v: View, ops: seq<Op>, k: nat): TermId
    requires v.forest.Valid() && k < |ops|
  {
    Steps(v, ops[..k + 1]).running
  }

  lemma TurnAt(v: View, ops: seq<Op>, k: nat)
    requires v.forest.Valid() && k < |ops| && ops[k].Tick?
    ensures TurnAfter(v, ops, k) == (v.running + (Ticks(ops[..k]) + 1)) % 3
  {
    hide Forest.Valid, Steps;
    TurnsRotate(v, ops[..k + 1]);
    assert ops[..k + 1] == ops[..k] + [ops[k]];
    TicksAdd(ops[..k], [ops[k]]);
    assert [ops[k]][1..] == [];
  }

  /** Among any three consecutive timer interrupts every terminal gets its turn, and gets it once. */
  lemma EveryTerminalHasItsTurn(v: View, ops: seq<Op>, t: TermId)
    requires v.forest.Valid() && Ticks(ops) == 3
    ensures exists k | 0 <= k < |ops| :: ops[k].Tick? && TurnAfter(v, ops, k) == t
    ensures forall k, l | 0 <= k < l < |ops| && ops[k].Tick? && ops[l].Tick? ::
              TurnAfter(v, ops, k) != TurnAfter(v, ops, l)
  {
    hide Forest.Valid, TurnAfter, Ticks;
    var n := if t > v.running then t - v.running else t + 3 - v.running;
    var k := TickNumber(ops, n);
    TurnAt(v, ops, k);
    assert (v.running + n) % 3 == t;
    forall k, l | 0 <= k < l < |ops| && ops[k].Tick? && ops[l].Tick?
      ensures TurnAfter(v, ops, k) != TurnAfter(v, ops, l)
    {
      TurnAt(v, ops, k);
      TurnAt(v, ops, l);
      FewerThanThree(ops, k, l);
      OtherTurn(v.running, Ticks(ops[..k]) + 1, Ticks(ops[..l]) + 1);
    }
  }

  lemma OtherTurn(r: nat, a: nat, b: nat)
    requires a < b < a + 3
    ensures (r + a) % 3 != (r + b) % 3
  {
  }

  lemma FewerThanThree(ops: seq<Op>, k: nat, l: nat)
    requires k < l < |ops| && ops[k].Tick? && ops[l].Tick? && Ticks(ops) == 3
    ensures Ticks(ops[..k]) < Ticks(ops[..l]) <= 2
  {
    assert ops == ops[..l] + ops[l..] && ops[..l] == ops[..k] + ops[k..l];
    TicksAdd(ops[..l], ops[l..]);
    TicksAdd(ops[..k], ops[k..l]);
    assert ops[l..][0] == ops[l] && ops[k..l][0] == ops[k];
  }

  // ----- runs of the tables themselves -----

  /** All that the bookkeeping keeps: the tables, whose turn it is, and the running control block. */
  datatype Tables = Tables(
    pids: seq<int>, sched: seq<nat>, pcbs: seq<Pcb>, count: nat, running: TermId, shown: TermId, current: int)

  /** The first slot from the given one on that is not in use. */
  function FreeSlot(pids: seq<int>, slot: nat): (free: nat)
    ensures slot <= free && (forall k | slot <= k < free && k < |pids| :: pids[k] != 0)
    ensures free < |pids| ==> pids[free] == 0
    decreases |pids| - slot
  {
    if slot < |pids| && pids[slot] != 0 then FreeSlot(pids, slot + 1) else slot
  }

  /** The running control block names a process, and there is a slot for another one. */
  predicate Usable(k: Tables) {
    && |k.pids| == PROGRAM_MAX && |k.sched| == NUM_TERM && |k.pcbs| == PROGRAM_MAX && k.count > 0
    && 0 <= k.current < PROGRAM_MAX
    && 1 <= k.pcbs[k.current].pid <= PROGRAM_MAX && k.pcbs[k.current].parentPid >= 0
    && (k.count < PROGRAM_MAX ==> FreeSlot(k.pids, 0) < PROGRAM_MAX)
  }

  /** What an operation does to the tables, whether or not they describe stacks afterwards. */
  function TableStep(k: Tables, op: Op): Tables
    requires Usable(k)
  {
    match op
    case Tick =>
      var next: TermId := (k.running + 1) % NUM_TERM;
      k.(running := next, current := k.sched[next] as int - 1)
    case Exec(program) =>
      if k.count >= PROGRAM_MAX || !program.Loads? then k
      else
        var slot := FreeSlot(k.pids, 0);
        k.(pids := k.pids[slot := 1], sched := k.sched[k.shown := slot + 1], count := k.count + 1, current := slot,
           pcbs := k.pcbs[slot := Pcb(slot + 1, k.pcbs[k.current].pid, k.current)])
    case Halt =>
      var pcb := k.pcbs[k.current];
      if pcb.pid <= NUM_TERM then k
      else k.(pids := k.pids[pcb.pid - 1 := 0], sched := k.sched[k.running := pcb.parentPid], count := k.count - 1,
              current := pcb.parentPcb)
    case Switch(idx) => if idx < NUM_TERM then k.(shown := idx) else k
  }

  ghost predicate Describes(f: Forest, k: Tables) {
    Accounts(f, k.pids, k.sched, k.pcbs, k.count) && Running(f, k.running, k.current)
  }

  /** Some stacks of processes fit the tables. */
  ghost predicate Consistent(k: Tables) {
    exists f :: Describes(f, k)
  }

  /** No program is started while another terminal is on the monitor. */
  predicate InForeground(k: Tables, op: Op) {
    op == Exec(Loads) && k.count < PROGRAM_MAX ==> k.running == k.shown
  }

  /** Every process in a slot can be reached from some terminal's scheduled process. */
  ghost predicate NobodyLost(k: Tables)
    requires |k.pids| == PROGRAM_MAX && |k.sched| == NUM_TERM
  {
    forall slot | 0 <= slot < PROGRAM_MAX && k.pids[slot] != 0 :: exists t: TermId :: OnChain(k.sched, k.pcbs, t, slot)
  }

  lemma DescribedUsable(f: Forest, k: Tables)
    requires Describes(f, k)
    ensures Usable(k) && f.Valid() && k.count == |f.place| && k.pcbs[k.current].pid == f.Leaf(k.running)
    ensures f.Leaf(k.running) <= NUM_TERM <==> |f.stacks[k.running]| == 1
    ensures k.count < PROGRAM_MAX ==> FreeSlot(k.pids, 0) + 1 == FirstFree(f, 1) && FirstFree(f, 1) !in f.place
  {
    hide Forest.Valid, Chained, SlotsInUse, LeavesRun;
    LeafBlock(f, k.pids, k.sched, k.pcbs, k.count, k.running);
    HasParent(f, k);
    if k.count < PROGRAM_MAX {
      var free := SomeSlotFree(f, k.pids, k.sched, k.pcbs, k.count);
      FirstFreeSlot(f, k.pids, k.sched, k.pcbs, k.count, FreeSlot(k.pids, 0));
    }
  }

  lemma HasParent(f: Forest, k: Tables)
    requires Describes(f, k)
    ensures 0 <= k.current < |k.pcbs| && k.pcbs[k.current].parentPid >= 1 && k.count > 0
  {
    var leaf := f.Leaf(k.running);
    LeafInPlace(f, k.running);
    assert ParentOf(f, leaf) in f.place;
    assert |f.place| == 0 ==> f.place == map[];
  }

  lemma ConsistentUsable(k: Tables)
    requires Consistent(k)
    ensures Usable(k)
  {
    hide Describes, Usable;
    var f :| Describes(f, k);
    DescribedUsable(f, k);
  }

  /** In the foreground the tables follow the stacks ... */
  lemma TablesFollow(f: Forest, k: Tables, op: Op, own: bool)
    requires Describes(f, k) && Usable(k) && InForeground(k, op) && f.Valid()
    ensures var (v, n) := (Step(View(f, k.running, k.shown, own), op), TableStep(k, op));
            Describes(v.forest, n) && v.running == n.running && v.shown == n.shown
  {
    hide Forest.Valid, Chained, SlotsInUse, LeavesRun, Forest.Pushed, Forest.Popped;
    DescribedUsable(f, k);
    match op {
      case Tick => LeafBlock(f, k.pids, k.sched, k.pcbs, k.count, (k.running + 1) % NUM_TERM);
      case Exec(program) =>
        if k.count < PROGRAM_MAX && program.Loads? {
          ExecuteAccounts(f, k.pids, k.sched, k.pcbs, k.count, k.shown, FreeSlot(k.pids, 0));
        }
      case Halt =>
        if |f.stacks[k.running]| > 1 {
          HaltAccounts(f, k.pids, k.sched, k.pcbs, k.count, k.running);
        }
      case Switch(idx) =>
    }
  }

  /** ... and lose no process, while a program started in the background makes them lose one. */
  lemma StepLosesNobody(k: Tables, op: Op)
    requires Consistent(k)
    ensures Usable(k)
    ensures Consistent(TableStep(k, op)) <==> InForeground(k, op)
    ensures |TableStep(k, op).pids| == PROGRAM_MAX && |TableStep(k, op).sched| == NUM_TERM
    ensures NobodyLost(TableStep(k, op)) <==> InForeground(k, op)
  {
    hide Describes, NobodyLost;
    ConsistentUsable(k);
    var f :| Describes(f, k);
    DescribedUsable(f, k);
    var n := TableStep(k, op);
    if InForeground(k, op) {
      TablesFollow(f, k, op, true);
      DescribedLosesNobody(Step(View(f, k.running, k.shown, true), op).forest, n);
    } else {
      BackgroundLoses(f, k);
    }
  }

  lemma DescribedLosesNobody(f: Forest, k: Tables)
    requires Describes(f, k)
    ensures |k.pids| == PROGRAM_MAX && |k.sched| == NUM_TERM && NobodyLost(k) && Consistent(k)
  {
    hide OnChain, SlotsInUse, Chained, LeavesRun, Forest.Valid;
    forall slot | 0 <= slot < PROGRAM_MAX && k.pids[slot] != 0
      ensures exists t: TermId :: OnChain(k.sched, k.pcbs, t, slot)
    {
      ChainsPartitionSlots(f, k.pids, k.sched, k.pcbs, k.count, slot);
    }
  }

  lemma BackgroundLoses(f: Forest, k: Tables)
    requires Describes(f, k) && k.count < PROGRAM_MAX && k.running != k.shown && Usable(k)
    ensures var n := TableStep(k, Exec(Loads));
            !Consistent(n) && !NobodyLost(n)
  {
    hide OnChain, SlotsInUse, Chained, LeavesRun, Forest.Valid;
    DescribedUsable(f, k);
    LeafSlot(f, k);
    var slot, n := FreeSlot(k.pids, 0), TableStep(k, Exec(Loads));
    forall g: Forest
      ensures !Describes(g, n)
    {
      NoStacksFit(f, k.pids, k.sched, k.pcbs, k.count, k.running, k.shown, slot, g, n.pids, n.count);
    }
    var lost := f.Leaf(k.shown) - 1;
    forall w: TermId
      ensures !OnChain(n.sched, n.pcbs, w, lost)
    {
      LeafLost(f, k.pids, k.sched, k.pcbs, k.count, k.running, k.shown, slot, w);
    }
    assert n.pids[lost] != 0;
  }

  lemma LeafSlot(f: Forest, k: Tables)
    requires Describes(f, k)
    ensures |k.pids| == PROGRAM_MAX && |f.stacks| == NUM_TERM && f.stacks[k.shown] != []
    ensures 1 <= f.Leaf(k.shown) <= PROGRAM_MAX && k.pids[f.Leaf(k.shown) - 1] != 0
  {
    LeafInPlace(f, k.shown);
  }

  /** No process is lost all along a run, as far as it can be followed. */
  ghost predicate NobodyEverLost(k: Tables, ops: seq<Op>)
    requires Consistent(k)
    decreases |ops|
  {
    ops == [] ||
    (StepLosesNobody(k, ops[0]);
     NobodyLost(TableStep(k, ops[0])) && NobodyEverLost(TableStep(k, ops[0]), ops[1..]))
  }

  ghost predicate AllInForeground(k: Tables, ops: seq<Op>)
    requires Consistent(k)
    decreases |ops|
  {
    ops == [] ||
    (StepLosesNobody(k, ops[0]);
     InForeground(k, ops[0]) && AllInForeground(TableStep(k, ops[0]), ops[1..]))
  }

  /** Every live process can be reached throughout a run exactly if all programs are started in the foreground. */
  lemma {:induction false} LostExactlyInBackground(k: Tables, ops: seq<Op>)
    requires Consistent(k)
    ensures NobodyEverLost(k, ops) <==> AllInForeground(k, ops)
    decreases |ops|
  {
    hide Consistent, NobodyLost, TableStep, InForeground;
    if ops != [] {
      StepLosesNobody(k, ops[0]);
      if InForeground(k, ops[0]) {
        LostExactlyInBackground(TableStep(k, ops[0]), ops[1..]);
      }
    }
  }

  ghost function TableSteps(k: Tables, ops: seq<Op>): (end: Tables)
    requires Consistent(k) && AllInForeground(k, ops)
    ensures Consistent(end)
    decreases |ops|
  {
    if ops == [] then k
    else
      StepLosesNobody(k, ops[0]);
      TableSteps(TableStep(k, ops[0]), ops[1..])
  }

  /** Over every run in the foreground each terminal's base shell keeps its slot and stays the end of its chain. */
  lemma BaseShellsSurvive(k: Tables, ops: seq<Op>, t: TermId)
    requires Consistent(k) && AllInForeground(k, ops)
    ensures var end := TableSteps(k, ops);
            |end.pids| == PROGRAM_MAX && |end.sched| == NUM_TERM
            && end.pids[t] != 0 && OnChain(end.sched, end.pcbs, t, t)
  {
    hide OnChain, Forest.Valid, Chained, LeavesRun, AllInForeground, TableStep;
    var end := TableSteps(k, ops);
    var f :| Describes(f, end);
    BaseSlots(f, end.pids);
    assert f.stacks[t][0] == t + 1 by {
      BaseOf(f, t);
    }
    OnChainMeansOnStack(f, end.pids, end.sched, end.pcbs, end.count, t, t);
  }

  lemma BaseOf(f: Forest, t: TermId)
    requires f.Valid()
    ensures |f.stacks| == NUM_TERM && f.stacks[t] != [] && f.stacks[t][0] == t + 1
  {
  }

  /** The tables tell the foreground from the background as the stacks do. */
  lemma {:induction false} ForegroundAgrees(f: Forest, k: Tables, own: bool, ops: seq<Op>)
    requires Describes(f, k) && f.Valid() && Foreground(View(f, k.running, k.shown, own), ops)
    ensures Consistent(k) && AllInForeground(k, ops)
    decreases |ops|
  {
    hide Describes, Forest.Valid, TableStep, Step, Usable;
    DescribedUsable(f, k);
    if ops != [] {
      var next := Step(View(f, k.running, k.shown, own), ops[0]);
      StepKeepsForest(View(f, k.running, k.shown, own), ops[0]);
      StepLosesNobody(k, ops[0]);
      TablesFollow(f, k, ops[0], own);
      ForegroundAgrees(next.forest, TableStep(k, ops[0]), next.ownFrame, ops[1..]);
    }
  }

  /** A program that is started and then halts leaves the tables as they were, up to its own
      control block, exactly if it was started in the foreground; otherwise the terminal on the
      monitor is left with a process that does not exist. */
  lemma HaltUndoesExecuteExactly(k: Tables)
    requires Consistent(k) && k.count < PROGRAM_MAX
    ensures Usable(k) && Usable(TableStep(k, Exec(Loads)))
    ensures var end := TableStep(TableStep(k, Exec(Loads)), Halt);
            && (end == k.(pcbs := end.pcbs) <==> k.running == k.shown)
            && (k.running != k.shown ==> 0 < end.sched[k.shown] <= PROGRAM_MAX && end.pids[end.sched[k.shown] - 1] == 0)
  {
    hide Describes, Usable;
    var f :| Describes(f, k);
    DescribedUsable(f, k);
    ChildSlot(f, k);
    ExecutedAndHalted(k);
  }

  lemma ChildSlot(f: Forest, k: Tables)
    requires Describes(f, k) && Usable(k) && k.count < PROGRAM_MAX
    ensures var slot := FreeSlot(k.pids, 0);
            && slot >= NUM_TERM && k.sched[k.shown] != slot + 1 && k.sched[k.running] == k.pcbs[k.current].pid
            && (k.count + 1 < PROGRAM_MAX ==> FreeSlot(k.pids[slot := 1], 0) < PROGRAM_MAX)
  {
    hide Forest.Valid, Chained, SlotsInUse, LeavesRun;
    DescribedUsable(f, k);
    var slot := FreeSlot(k.pids, 0);
    LeafBlock(f, k.pids, k.sched, k.pcbs, k.count, k.running);
    LeafBlock(f, k.pids, k.sched, k.pcbs, k.count, k.shown);
    LeafInPlace(f, k.shown);
    BaseSlots(f, k.pids);
    ExecuteAccounts(f, k.pids, k.sched, k.pcbs, k.count, k.shown, slot);
    if k.count + 1 < PROGRAM_MAX {
      var g, pids := f.Pushed(k.shown, slot + 1), k.pids[slot := 1];
      var sched, pcbs := k.sched[k.shown := slot + 1], k.pcbs[slot := Pcb(slot + 1, f.Leaf(k.shown), f.Leaf(k.shown) - 1)];
      var free := SomeSlotFree(g, pids, sched, pcbs, k.count + 1);
    }
  }

  lemma BaseSlots(f: Forest, pids: seq<int>)
    requires f.Valid() && |pids| == PROGRAM_MAX && SlotsInUse(f, pids)
    ensures pids[0] != 0 && pids[1] != 0 && pids[2] != 0
  {
    assert f.stacks[0][0] == 1 && f.stacks[1][0] == 2 && f.stacks[2][0] == 3;
  }

  lemma ExecutedAndHalted(k: Tables)
    requires Usable(k) && k.count < PROGRAM_MAX
    requires var slot := FreeSlot(k.pids, 0);
             && slot >= NUM_TERM && k.sched[k.shown] != slot + 1 && k.sched[k.running] == k.pcbs[k.current].pid
             && (k.count + 1 < PROGRAM_MAX ==> FreeSlot(k.pids[slot := 1], 0) < PROGRAM_MAX)
    ensures Usable(TableStep(k, Exec(Loads)))
    ensures var end := TableStep(TableStep(k, Exec(Loads)), Halt);
            && (end == k.(pcbs := end.pcbs) <==> k.running == k.shown)
            && (k.running != k.shown ==> 0 < end.sched[k.shown] <= PROGRAM_MAX && end.pids[end.sched[k.shown] - 1] == 0)
  {
    var slot := FreeSlot(k.pids, 0);
    var end := TableStep(TableStep(k, Exec(Loads)), Halt);
    assert end.sched == k.sched[k.shown := slot + 1][k.running := k.sched[k.running]];
    assert k.running == k.shown ==> end.sched == k.sched;
    assert end.sched[k.shown] == if k.running == k.shown then k.sched[k.shown] else slot + 1;
  }

  // ----- the kernel -----

  /** The stacks at the end of start-up: a base shell each. */
  ghost predicate BaseShellsOnly(f: Forest) {
    && |f.stacks| == NUM_TERM && (forall t: TermId :: f.stacks[t] == [t + 1])
    && (forall p :: p in f.place <==> 1 <= p <= NUM_TERM) && (forall p | p in f.place :: f.place[p] == (p - 1, 0))
  }

  lemma ThreeProcesses(f: Forest)
    requires forall p :: p in f.place <==> 1 <= p <= NUM_TERM
    ensures |f.place| == NUM_TERM
  {
    var three := {1, 2, 3};
    assert forall p :: p in f.place.Keys <==> p in three;
    assert f.place.Keys == three;
  }

  lemma BaseShellsValid(f: Forest)
    requires BaseShellsOnly(f)
    ensures f.Valid() && |f.place| == NUM_TERM
    ensures forall p | p in f.place :: ParentOf(f, p) == p
    ensures forall t: TermId :: f.Leaf(t) == t + 1
  {
    ThreeProcesses(f);
  }

  lemma BaseShellsAccount(f: Forest, pids: seq<int>, sched: seq<nat>, pcbs: seq<Pcb>)
    requires BaseShellsOnly(f)
    requires |pids| == PROGRAM_MAX && |sched| == NUM_TERM && |pcbs| == PROGRAM_MAX
    requires forall k | 0 <= k < PROGRAM_MAX :: pids[k] == if k < NUM_TERM then 1 else 0
    requires forall k | 0 <= k < NUM_TERM :: sched[k] == k + 1 && pcbs[k] == Pcb(k + 1, k + 1, k)
    ensures Accounts(f, pids, sched, pcbs, NUM_TERM)
    ensures forall t: TermId :: Running(f, t, t)
  {
    hide Forest.Valid, ParentOf, Forest.Leaf;
    BaseShellsValid(f);
    assert SlotsInUse(f, pids) && LeavesRun(f, sched) && Chained(f, pcbs);
  }

  class Kernel {
    const pidArr: array<int>
    var programCount: nat
    const schedPid: array<nat>
    const pcbs: array<Pcb>
    var pcbCurrent: int
    var currProcess: TermId
    var currTerminal: TermId
    /** The 4 MB frame that the user page maps, counted from 8 MB. */
    var userPage: int

    ghost var forest: Forest
    ghost const Repr: set<object>

    ghost predicate Shaped()
      reads this
    {
      && Repr == {this, pidArr, schedPid, pcbs} && pidArr as object != schedPid
      && pidArr.Length == PROGRAM_MAX && schedPid.Length == NUM_TERM && pcbs.Length == PROGRAM_MAX
    }

    /** The tables describe the stacks ... */
    ghost predicate Accounted()
      reads this, pidArr, schedPid, pcbs
    {
      Shaped() && Accounts(forest, pidArr[..], schedPid[..], pcbs[..], programCount)
    }

    /** ... and the running process is the leaf of its terminal's chain. */
    ghost predicate Valid()
      reads this, pidArr, schedPid, pcbs
    {
      Accounted() && Running(forest, currProcess, pcbCurrent)
    }

    ghost function Abstract(): View
      reads this
    {
      View(forest, currProcess, currTerminal, userPage == pcbCurrent)
    }

    ghost function Snapshot(): Tables
      reads this, pidArr, schedPid, pcbs
    {
      Tables(pidArr[..], schedPid[..], pcbs[..], programCount, currProcess, currTerminal, pcbCurrent)
    }

    // ----- start-up -----

    /** n base shells are up. */
    ghost predicate Booting(n: nat)
      requires n <= NUM_TERM
      reads this, pidArr, schedPid, pcbs
    {
      && Shaped() && programCount == n && currProcess == (if n == 0 then 0 else n - 1)
      && (forall k | 0 <= k < PROGRAM_MAX :: pidArr[k] == if k < n then 1 else 0)
      && (forall k | 0 <= k < NUM_TERM :: schedPid[k] == if k < n then k + 1 else 0)
      && (forall k | 0 <= k < n :: pcbs[k] == Pcb(k + 1, k + 1, k))
      && (n > 0 ==> pcbCurrent == n - 1 == userPage)
    }

    constructor ()
      ensures Booting(0) && fresh(Repr) && currTerminal == 0
    {
      pidArr := new int[PROGRAM_MAX](_ => 0);
      schedPid := new nat[NUM_TERM](_ => 0);
      pcbs := new Pcb[PROGRAM_MAX](_ => Pcb(0, 0, NO_PCB));
      programCount, pcbCurrent, userPage := 0, NO_PCB, 0;
      currProcess, currTerminal := 0, 0;
      forest := Forest([], map[]);
      Repr := {this, pidArr, schedPid, pcbs};
    }

    /** execute_handler for a base shell: it is its own parent. */
    method StartShell()
      requires Shaped() && programCount < NUM_TERM
      requires forall k | 0 <= k < PROGRAM_MAX :: pidArr[k] == if k < programCount then 1 else 0
      modifies this`programCount, this`pcbCurrent, this`userPage, pidArr, schedPid, pcbs
      ensures programCount == old(programCount) + 1 && pcbCurrent == userPage == old(programCount)
      ensures pidArr[..] == old(pidArr[..])[old(programCount) := 1]
      ensures schedPid[..] == old(schedPid[..])[old(programCount) := programCount]
      ensures pcbs[..] == old(pcbs[..])[old(programCount) := Pcb(programCount, programCount, old(programCount))]
    {
      var slot := 0;
      while pidArr[slot] != 0
        invariant slot <= programCount
        decreases programCount - slot
      {
        slot := slot + 1;
      }
      userPage := slot;
      pcbs[programCount] := Pcb(programCount + 1, programCount + 1, programCount);
      programCount := programCount + 1;
      pidArr[programCount - 1] := 1;
      schedPid[programCount - 1] := programCount;
      pcbCurrent := programCount - 1;
    }

    /** scheduler while a terminal still lacks its base shell: it gets one. */
    method BootTick()
      requires programCount < NUM_TERM && Booting(programCount)
      modifies this`currProcess, this`programCount, this`pcbCurrent, this`userPage, pidArr, schedPid, pcbs
      ensures programCount == old(programCount) + 1 && Booting(programCount)
    {
      if schedPid[0] == 0 {
        schedPid[0] := 1;
        StartShell();
        return;
      }
      var next := (currProcess + 1) % NUM_TERM;
      schedPid[next] := schedPid[currProcess] + 1;
      currProcess := next;
      StartShell();
    }

    /** The first three timer interrupts put a base shell on every terminal. */
    method Boot()
      requires Booting(0)
      modifies Repr
      ensures Valid() && BaseShellsOnly(forest) && Abstract() == View(forest, 2, old(currTerminal), true)
    {
      hide Accounts;
      BootTick();
      BootTick();
      BootTick();
      forest := Forest([[1], [2], [3]], map[1 := (0, 0), 2 := (1, 0), 3 := (2, 0)]);
      BaseShellsAccount(forest, pidArr[..], schedPid[..], pcbs[..]);
    }

    // ----- execute -----

    method FindSlot() returns (slot: nat)
      requires Accounted() && programCount < PROGRAM_MAX
      ensures slot < PROGRAM_MAX && pidArr[slot] == 0 && slot + 1 == FirstFree(forest, 1)
    {
      hide Accounts, Forest.Valid;
      ghost var free := SomeSlotFree(forest, pidArr[..], schedPid[..], pcbs[..], programCount);
      slot := 0;
      while pidArr[slot] != 0
        invariant slot <= free && forall k | 0 <= k < slot :: pidArr[k] != 0
        decreases free - slot
      {
        slot := slot + 1;
      }
      FirstFreeSlot(forest, pidArr[..], schedPid[..], pcbs[..], programCount, slot);
    }

    /** execute_handler, once three base shells are up: the new process takes the first free
        slot, with the running process as its parent, and becomes the leaf of the terminal on
        the monitor.  If that is not the running process's own terminal, no stacks of
        processes fit the tables any more. */
    method Execute(program: Program) returns (r: int)
      requires Valid()
      modifies this`programCount, this`pcbCurrent, this`userPage, this`forest, pidArr, schedPid, pcbs
      ensures r == if |old(forest).place| < PROGRAM_MAX && program.Loads? then 0 else -1
      ensures var ok := |old(forest).place| >= PROGRAM_MAX || !program.Loads? || currProcess == currTerminal;
              && (Valid() <==> ok)
              && ((exists g: Forest :: Accounts(g, pidArr[..], schedPid[..], pcbs[..], programCount)) <==> ok)
      ensures old(forest).Valid()
      ensures Usable(old(Snapshot())) && Snapshot() == TableStep(old(Snapshot()), Exec(program))
      ensures Valid() ==> Abstract() == Step(old(Abstract()), Exec(program))
      ensures r == 0 ==> forest == old(forest).Pushed(currTerminal, pcbCurrent + 1)
    {
      hide Accounts, Forest.Valid, Usable;
      assert Describes(forest, Snapshot());
      DescribedUsable(forest, Snapshot());
      AtMostSix(forest, pidArr[..], schedPid[..], pcbs[..], programCount);
      if programCount >= PROGRAM_MAX {
        return -1;
      }
      if program.NotExecutable? {
        return -1;
      }
      var slot := FindSlot();
      LeafBlock(forest, pidArr[..], schedPid[..], pcbs[..], programCount, currProcess);
      userPage := slot;
      FirstFreeIsNew(forest, slot + 1, currProcess, currTerminal);
      if program.FailsToLoad? {
        return -1;
      }
      StartChild(slot);
      return 0;
    }

    /** The bookkeeping of execute_handler for a program that has been loaded. */
    method StartChild(slot: nat)
      requires Valid() && programCount < PROGRAM_MAX && slot < PROGRAM_MAX && slot + 1 !in forest.place
      modifies this`programCount, this`pcbCurrent, this`forest, pidArr, schedPid, pcbs
      ensures Valid() <==> currProcess == currTerminal
      ensures (exists g: Forest :: Accounts(g, pidArr[..], schedPid[..], pcbs[..], programCount))
              <==> currProcess == currTerminal
      ensures pcbCurrent == slot && forest == old(forest).Pushed(currTerminal, slot + 1)
      ensures 0 <= old(pcbCurrent) < PROGRAM_MAX
      ensures Snapshot() == old(Snapshot()).(pids := old(pidArr[..])[slot := 1], count := old(programCount) + 1,
                sched := old(schedPid[..])[currTerminal := slot + 1], current := slot,
                pcbs := old(pcbs[..])[slot := Pcb(slot + 1, old(pcbs[pcbCurrent]).pid, old(pcbCurrent))])
    {
      hide Accounts, Forest.Valid;
      LeafBlock(forest, pidArr[..], schedPid[..], pcbs[..], programCount, currProcess);
      AtMostSix(forest, pidArr[..], schedPid[..], pcbs[..], programCount);
      ExecuteAccounts(forest, pidArr[..], schedPid[..], pcbs[..], programCount, currTerminal, slot);
      ghost var f, pids, sched, blocks, count := forest, pidArr[..], schedPid[..], pcbs[..], programCount;
      pcbs[slot] := Pcb(slot + 1, pcbs[pcbCurrent].pid, pcbCurrent);
      programCount := programCount + 1;
      pidArr[slot] := 1;
      schedPid[currTerminal] := slot + 1;
      pcbCurrent := slot;
      forest := forest.Pushed(currTerminal, slot + 1);
      if currProcess != currTerminal {
        forall g: Forest
          ensures !Accounts(g, pidArr[..], schedPid[..], pcbs[..], programCount)
        {
          NoStacksFit(f, pids, sched, blocks, count, currProcess, currTerminal, slot, g, pidArr[..], programCount);
        }
      }
    }

    /** halt_handler: base shells stay, any other process gives way to its parent. */
    method HaltProcess()
      requires Shaped() && Usable(Snapshot())
      modifies this`programCount, this`pcbCurrent, this`userPage, this`forest, pidArr, schedPid
      ensures Shaped() && Snapshot() == TableStep(old(Snapshot()), Halt)
      ensures old(Valid()) ==> Valid() && old(forest).Valid() && Abstract() == Step(old(Abstract()), Halt)
    {
      hide Accounts, Forest.Valid;
      if Valid() {
        AtMostSix(forest, pidArr[..], schedPid[..], pcbs[..], programCount);
        LeafBlock(forest, pidArr[..], schedPid[..], pcbs[..], programCount, currProcess);
      }
      if pcbs[pcbCurrent].pid <= NUM_TERM {
        return;
      }
      if Valid() {
        HaltAccounts(forest, pidArr[..], schedPid[..], pcbs[..], programCount, currProcess);
        forest := forest.Popped(currProcess);
      }
      var pcb := pcbs[pcbCurrent];
      pidArr[pcb.pid - 1] := 0;
      schedPid[currProcess] := pcb.parentPid;
      programCount := programCount - 1;
      userPage := pcb.parentPid - 1;
      pcbCurrent := pcb.parentPcb;
    }

    /** scheduler, once every terminal has its base shell.  Whoever ran before, the process that
        runs afterwards is the leaf of its terminal's chain, in its own frame. */
    method NextProcess()
      requires Accounted()
      modifies this`currProcess, this`pcbCurrent, this`userPage
      ensures Valid() && Abstract() == Step(old(Abstract()), Tick)
      ensures Usable(old(Snapshot())) ==> Snapshot() == TableStep(old(Snapshot()), Tick)
    {
      hide Accounts, Forest.Valid;
      var next := (currProcess + 1) % NUM_TERM;
      LeafBlock(forest, pidArr[..], schedPid[..], pcbs[..], programCount, next);
      currProcess := next;
      pcbCurrent := schedPid[next] - 1;
      userPage := pcbs[pcbCurrent].pid - 1;
    }

    /** terminal_switch has no part in the process tables. */
    method SwitchTerminal(idx: nat)
      requires Valid()
      modifies this`currTerminal
      ensures Valid() && Abstract() == Step(old(Abstract()), Switch(idx))
      ensures Usable(old(Snapshot())) ==> Snapshot() == TableStep(old(Snapshot()), Switch(idx))
    {
      if idx < NUM_TERM {
        currTerminal := idx;
      }
    }

    /** Whatever the order of the steps, the kernel's tables keep describing the process stacks, and
        the two change in step. */
    method Run(ops: seq<Op>)
      requires Valid() && forest.Valid() && Foreground(Abstract(), ops)
      modifies Repr
      ensures Valid() && Abstract() == Steps(old(Abstract()), ops)
      ensures Consistent(old(Snapshot())) && AllInForeground(old(Snapshot()), ops)
      ensures Snapshot() == TableSteps(old(Snapshot()), ops)
      ensures currProcess == (old(currProcess) + Ticks(ops)) % 3 && currTerminal == ShownAfter(old(currTerminal), ops)
    {
      hide Accounts, Forest.Valid, TableStep, Step, Usable, NobodyLost;
      ghost var before := Snapshot();
      assert Describes(forest, before);
      ForegroundAgrees(forest, before, Abstract().ownFrame, ops);
      assert ops[0..] == ops;
      for k := 0 to |ops|
        invariant Valid() && forest.Valid() && Foreground(Abstract(), ops[k..])
        invariant Steps(old(Abstract()), ops) == Steps(Abstract(), ops[k..])
        invariant Consistent(Snapshot()) && AllInForeground(Snapshot(), ops[k..])
        invariant TableSteps(before, ops) == TableSteps(Snapshot(), ops[k..])
      {
        assert ops[k..][0] == ops[k] && ops[k..][1..] == ops[k + 1..];
        StepKeepsForest(Abstract(), ops[k]);
        StepLosesNobody(Snapshot(), ops[k]);
        Obey(ops[k]);
      }
      assert ops[|ops|..] == [];
      TurnsRotate(old(Abstract()), ops);
    }

    /** One step of a run. */
    method Obey(op: Op)
      requires Valid() && forest.Valid() && Usable(Snapshot()) && InForeground(Snapshot(), op)
      modifies Repr
      ensures Valid() && Abstract() == Step(old(Abstract()), op) && Snapshot() == TableStep(old(Snapshot()), op)
    {
      hide Accounts, Forest.Valid, TableStep, Step, Usable;
      assert programCount == |forest.place| by {
        AtMostSix(forest, pidArr[..], schedPid[..], pcbs[..], programCount);
      }
      match op {
        case Tick => NextProcess();
        case Exec(program) => var _ := Execute(program);
        case Halt => HaltProcess();
        case Switch(idx) => SwitchTerminal(idx);
      }
    }

    /** A program that is executed and then halts leaves the tables as they were, up to its own
        control block, exactly if it was started on the terminal on the monitor.  Otherwise
        that terminal is left with a process that does not exist. */
    method ExecuteThenHalt()
      requires Valid() && programCount < PROGRAM_MAX
      modifies Repr
      ensures Snapshot() == old(Snapshot()).(pcbs := pcbs[..]) <==> currProcess == currTerminal
      ensures currProcess == currTerminal ==> Valid() && Abstract() == old(Abstract()).(ownFrame := true)
      ensures currProcess == old(currProcess) && currTerminal == old(currTerminal)
      ensures currProcess != currTerminal ==>
                0 < schedPid[currTerminal] <= PROGRAM_MAX && pidArr[schedPid[currTerminal] - 1] == 0
    {
      hide Accounts, Forest.Valid, Usable, Step, TableStep;
      AtMostSix(forest, pidArr[..], schedPid[..], pcbs[..], programCount);
      assert Describes(forest, Snapshot());
      HaltUndoesExecuteExactly(Snapshot());
      if currProcess == currTerminal {
        HaltUndoesExecute(Abstract());
      }
      var _ := Execute(Loads);
      HaltProcess();
    }

    /** Right after start-up, terminal 2 has its turn and terminal 0 is on the monitor: a program
        that is executed then leaves tables that no stacks fit. */
    method ExecuteAtStartUp() returns (r: int)
      requires Booting(0) && currTerminal == 0
      modifies Repr
      ensures r == 0 && currProcess == 2
      ensures !exists g: Forest :: Accounts(g, pidArr[..], schedPid[..], pcbs[..], programCount)
    {
      hide Accounts;
      Boot();
      BaseShellsValid(forest);
      r := Execute(Loads);
    }
  }
}
