/** Whole interleavings: slots are held exclusively, nothing deadlocks, everything ends. */
module SessionLocksRuns {
  import opened SessionLocks
  import opened SessionLocksProofs

  datatype Turn = Turn(t: nat, choice: Choice)

  predicate CanRun(s: State, turns: seq<Turn>)
    decreases |turns|
  {
    turns == [] ||
    (&& Possible(s, turns[0].t, turns[0].choice)
     && Step(s, turns[0].t, turns[0].choice).Some?
     && CanRun(Step(s, turns[0].t, turns[0].choice).value, turns[1..]))
  }

  function Run(s: State, turns: seq<Turn>): (end: State)
    requires CanRun(s, turns)
    ensures |end.slots| == |s.slots| && |end.threads| == |s.threads|
    decreases |turns|
  {
    if turns == [] then s else Run(Step(s, turns[0].t, turns[0].choice).value, turns[1..])
  }

  lemma {:induction false} RunKeeps(s: State, turns: seq<Turn>)
    requires Inv(s) && CanRun(s, turns)
    ensures Inv(Run(s, turns))
    decreases |turns|
  {
    if turns != [] {
      StepKeeps(s, turns[0].t, turns[0].choice);
      RunKeeps(Step(s, turns[0].t, turns[0].choice).value, turns[1..]);
    }
  }

  // The state an interleaving of so many threads leads to.
  ghost function Reached(threads: nat, turns: seq<Turn>): (s: State)
    requires CanRun(Start(threads), turns)
    ensures Inv(s) && s == Run(Start(threads), turns)
  {
    StartInv(threads);
    RunKeeps(Start(threads), turns);
    Run(Start(threads), turns)
  }

  // ------------------------------------------------- slots

  /** Between two allocations of a slot there is a disconnect. */
  lemma {:induction false} FreedBetween(log: seq<Change>, a: nat, b: nat)
    requires LogStatus(log).Some? && a < b < |log| && log[a].Taken? && log[b].Taken?
    ensures exists k :: a < k < b && log[k].Freed?
    decreases |log|
  {
    if b < |log| - 1 {
      var front := log[..|log| - 1];
      FreedBetween(front, a, b);
      var k :| a < k < b && front[k].Freed?;
      assert log[k].Freed?;
    } else {
      FreeNeedsFreed(log[..b], a);
      var k :| a < k < b && log[..b][k].Freed?;
      assert log[k].Freed?;
    }
  }

  // A slot that was taken at a and is free in the end was freed after a.
  lemma {:induction false} FreeNeedsFreed(log: seq<Change>, a: nat)
    requires LogStatus(log) == Some(Free) && a < |log| && log[a].Taken?
    ensures exists k :: a < k < |log| && log[k].Freed?
  {
  }

  /** Slot exclusivity: under every interleaving of any number of threads, a slot's
      changes are in order, so no two allocations take it without a disconnect between. */
  lemma SlotExclusivity(threads: nat, turns: seq<Turn>, i: nat, a: nat, b: nat)
    requires CanRun(Start(threads), turns) && i < ALL
    requires
      var log := Run(Start(threads), turns).slots[i].log;
      a < b < |log| && log[a].Taken? && log[b].Taken?
    ensures exists k :: a < k < b && Run(Start(threads), turns).slots[i].log[k].Freed?
  {
    StartInv(threads);
    RunKeeps(Start(threads), turns);
    assert SlotInv(Run(Start(threads), turns), i);
    FreedBetween(Run(Start(threads), turns).slots[i].log, a, b);
  }

  predicate StatusMoves(from: Status, to: Status) {
    || from == to
    || (from == Free && to == Accepted)
    || (from == Accepted && to == InGame)
    || (from != Free && to == Free)
  }

  // A step from s to s' that may change slot i's status: along the cycle, and only if the
  // thread has the slot's lock before and after.
  predicate ChangesUnderLock(s: State, s': State, pc: Pc, i: nat)
    requires i < |s.slots| && i < |s'.slots|
  {
    s'.slots[i].status != s.slots[i].status ==>
      && StatusMoves(s.slots[i].status, s'.slots[i].status)
      && HoldsSession(pc) == Some(i) && s'.slots[i].sl == s.slots[i].sl
  }

  lemma AllocUnderLock(s: State, t: nat, i: nat)
    requires |s.slots| == ALL && t < |s.threads| && PcFormed(s.threads[t]) && Warranted(s, s.threads[t])
    requires ProceedAlloc(s, t).Some? && i < ALL
    ensures ChangesUnderLock(s, ProceedAlloc(s, t).value, s.threads[t], i)
  {
  }

  lemma LoginUnderLock(s: State, t: nat, i: nat)
    requires |s.slots| == ALL && t < |s.threads| && PcFormed(s.threads[t]) && Warranted(s, s.threads[t])
    requires ProceedLogin(s, t).Some? && i < ALL
    ensures ChangesUnderLock(s, ProceedLogin(s, t).value, s.threads[t], i)
  {
  }

  lemma TellUnderLock(s: State, t: nat, near: bool, i: nat)
    requires |s.slots| == ALL && t < |s.threads| && PcFormed(s.threads[t]) && Warranted(s, s.threads[t])
    requires ProceedTell(s, t, near).Some? && i < ALL
    ensures ChangesUnderLock(s, ProceedTell(s, t, near).value, s.threads[t], i)
  {
  }

  lemma ShowUnderLock(s: State, t: nat, near: bool, i: nat)
    requires |s.slots| == ALL && t < |s.threads| && PcFormed(s.threads[t]) && Warranted(s, s.threads[t])
    requires ProceedShow(s, t, near).Some? && i < ALL
    ensures ChangesUnderLock(s, ProceedShow(s, t, near).value, s.threads[t], i)
  {
  }

  lemma DropUnderLock(s: State, t: nat, i: nat)
    requires |s.slots| == ALL && t < |s.threads| && PcFormed(s.threads[t]) && Warranted(s, s.threads[t])
    requires ProceedDrop(s, t).Some? && i < ALL
    ensures ChangesUnderLock(s, ProceedDrop(s, t).value, s.threads[t], i)
  {
  }

  lemma RoundUnderLock(s: State, t: nat, i: nat)
    requires |s.slots| == ALL && t < |s.threads| && PcFormed(s.threads[t]) && Warranted(s, s.threads[t])
    requires ProceedRound(s, t).Some? && i < ALL
    ensures ChangesUnderLock(s, ProceedRound(s, t).value, s.threads[t], i)
  {
  }

  lemma StatusChangesUnderLock(s: State, t: nat, near: bool, i: nat)
    requires |s.slots| == ALL && t < |s.threads| && PcFormed(s.threads[t]) && Warranted(s, s.threads[t])
    requires Proceed(s, t, near).Some? && i < ALL
    ensures ChangesUnderLock(s, Proceed(s, t, near).value, s.threads[t], i)
  {
    var pc := s.threads[t];
    if InAlloc(pc) {
      AllocUnderLock(s, t, i);
    } else if InLogin(pc) {
      LoginUnderLock(s, t, i);
    } else if InTell(pc) {
      TellUnderLock(s, t, near, i);
    } else if InShow(pc) {
      ShowUnderLock(s, t, near, i);
    } else if InDrop(pc) {
      DropUnderLock(s, t, i);
    } else {
      RoundUnderLock(s, t, i);
    }
  }

  /** Every step changes a slot's status along FREE, ACCEPTED, INGAME and back to FREE,
      and only the thread that holds the slot's session lock changes it. */
  lemma StatusTransitions(s: State, t: nat, choice: Choice, i: nat)
    requires Inv(s) && Possible(s, t, choice) && Step(s, t, choice).Some? && i < ALL
    ensures
      var s' := Step(s, t, choice).value;
      && StatusMoves(s.slots[i].status, s'.slots[i].status)
      && (s.slots[i].status != s'.slots[i].status ==> s.slots[i].sl == Some(t) && s'.slots[i].sl == Some(t))
  {
    assert SlotInv(s, i);
    if !s.threads[t].Idle? {
      StatusChangesUnderLock(s, t, choice.near, i);
    }
  }

  /** ... and so in every interleaving from the start. */
  lemma StatusTransitionsReached(threads: nat, turns: seq<Turn>, next: Turn, i: nat)
    requires CanRun(Start(threads), turns) && i < ALL
    requires Possible(Reached(threads, turns), next.t, next.choice)
    requires Step(Reached(threads, turns), next.t, next.choice).Some?
    ensures
      var s := Reached(threads, turns);
      var s' := Step(s, next.t, next.choice).value;
      && StatusMoves(s.slots[i].status, s'.slots[i].status)
      && (s.slots[i].status != s'.slots[i].status ==> s.slots[i].sl == s'.slots[i].sl == Some(next.t))
  {
    StatusTransitions(Reached(threads, turns), next.t, next.choice, i);
  }

  // ------------------------------------------------- what an allocation has inspected

  // The state n turns into a run.
  function StateAt(s: State, turns: seq<Turn>, n: nat): (s': State)
    requires CanRun(s, turns) && n <= |turns|
    ensures |s'.slots| == |s.slots| && |s'.threads| == |s.threads|
    decreases |turns|
  {
    if n == 0 then s else StateAt(Step(s, turns[0].t, turns[0].choice).value, turns[1..], n - 1)
  }

  lemma {:induction false} LastTurn(s: State, front: seq<Turn>, last: Turn)
    requires CanRun(s, front + [last])
    ensures CanRun(s, front) && Possible(Run(s, front), last.t, last.choice)
    ensures Step(Run(s, front), last.t, last.choice) == Some(Run(s, front + [last]))
    ensures StateAt(s, front, |front|) == Run(s, front)
    ensures forall n: nat :: n <= |front| ==> StateAt(s, front + [last], n) == StateAt(s, front, n)
    decreases |front|
  {
    var turns := front + [last];
    if front == [] {
      assert turns[1..] == [];
    } else {
      assert turns[0] == front[0] && turns[1..] == front[1..] + [last];
      LastTurn(Step(s, front[0].t, front[0].choice).value, front[1..], last);
    }
  }

  // At turn n thread t, holding slot k's session lock, looks at its status; and it has not
  // left that allocation since.
  ghost predicate InspectedAt(s: State, turns: seq<Turn>, n: nat, t: nat, k: nat, status: Status)
    requires CanRun(s, turns) && n <= |turns| && t < |s.threads| && k < |s.slots|
  {
    var s' := StateAt(s, turns, n);
    && s'.threads[t].AllocTest? && |s'.threads[t].seen| == k
    && s'.slots[k].sl == Some(t) && s'.slots[k].status == status
    && forall m: nat :: n <= m <= |turns| ==> InAlloc(StateAt(s, turns, m).threads[t])
  }

  ghost predicate Inspected(s: State, turns: seq<Turn>, t: nat, k: nat, status: Status)
    requires CanRun(s, turns) && t < |s.threads| && k < |s.slots|
  {
    exists n: nat :: n < |turns| && InspectedAt(s, turns, n, t, k, status)
  }

  ghost predicate InspectedTaken(s: State, turns: seq<Turn>, t: nat, k: nat)
    requires CanRun(s, turns) && t < |s.threads| && k < |s.slots|
  {
    Inspected(s, turns, t, k, Accepted) || Inspected(s, turns, t, k, InGame)
  }

  // An allocation that has found its slot.
  predicate Found(pc: Pc) {
    pc.AllocTake? || pc.AllocGive? || (pc.AllocDone? && pc.result != -1)
  }

  // All that an allocation of thread t remembers, it has seen.
  ghost predicate Recorded(s: State, turns: seq<Turn>, t: nat)
    requires CanRun(s, turns) && t < |s.threads| && |s.slots| == ALL
  {
    var pc := StateAt(s, turns, |turns|).threads[t];
    InAlloc(pc) && PcFormed(pc) ==>
      && (forall k: nat :: k < |pc.seen| ==> Inspected(s, turns, t, k, pc.seen[k]))
      && (Found(pc) ==> Inspected(s, turns, t, |pc.seen|, Free))
  }

  // How a step leads on inside an allocation from pc in state s to pc'.
  predicate AllocGoesOn(s: State, pc: Pc, pc': Pc)
    requires |s.slots| == ALL && PcFormed(pc) && InAlloc(pc) && InAlloc(pc')
  {
    || (pc'.seen == pc.seen &&
        (Found(pc') ==> Found(pc) || (pc.AllocTest? && s.slots[|pc.seen|].status == Free)))
    || (pc.AllocTest? && pc'.AllocPass? && pc'.seen == pc.seen + [s.slots[|pc.seen|].status])
  }

  lemma AllocProceeds(s: State, t: nat)
    requires |s.slots| == ALL && t < |s.threads| && PcFormed(s.threads[t]) && InAlloc(s.threads[t])
    requires ProceedAlloc(s, t).Some?
    ensures
      var pc' := ProceedAlloc(s, t).value.threads[t];
      InAlloc(pc') ==> AllocGoesOn(s, s.threads[t], pc')
  {
  }

  // No other operation leads into an allocation.
  lemma OthersStayOut(s: State, t: nat, near: bool)
    requires |s.slots| == ALL && t < |s.threads| && PcFormed(s.threads[t]) && !InAlloc(s.threads[t])
    requires Proceed(s, t, near).Some?
    ensures !InAlloc(Proceed(s, t, near).value.threads[t])
  {
  }

  lemma AllocStep(s: State, u: nat, choice: Choice, t: nat)
    requires Possible(s, u, choice) && Step(s, u, choice).Some? && t < |s.threads|
    requires PcFormed(s.threads[t])
    requires InAlloc(Step(s, u, choice).value.threads[t])
    ensures
      var pc, pc' := s.threads[t], Step(s, u, choice).value.threads[t];
      pc' == AllocWant([]) || (InAlloc(pc) && AllocGoesOn(s, pc, pc'))
  {
    if u == t && !s.threads[t].Idle? {
      if InAlloc(s.threads[t]) {
        AllocProceeds(s, t);
      } else {
        OthersStayOut(s, t, choice.near);
      }
    }
  }

  lemma InspectedStill(s: State, front: seq<Turn>, last: Turn, t: nat, k: nat, status: Status)
    requires CanRun(s, front + [last]) && CanRun(s, front) && t < |s.threads| && k < |s.slots|
    requires Inspected(s, front, t, k, status)
    requires InAlloc(StateAt(s, front + [last], |front| + 1).threads[t])
    ensures Inspected(s, front + [last], t, k, status)
  {
    LastTurn(s, front, last);
    var n: nat :| n < |front| && InspectedAt(s, front, n, t, k, status);
    forall m: nat | n <= m <= |front| + 1 ensures InAlloc(StateAt(s, front + [last], m).threads[t]) {
      if m <= |front| {
        assert StateAt(s, front + [last], m) == StateAt(s, front, m);
      }
    }
    assert InspectedAt(s, front + [last], n, t, k, status);
  }

  lemma InspectsNow(s: State, front: seq<Turn>, last: Turn, t: nat, k: nat)
    requires CanRun(s, front + [last]) && CanRun(s, front) && t < |s.threads| && k < |s.slots| == ALL
    requires Inv(Run(s, front)) && Run(s, front).threads[t].AllocTest? && |Run(s, front).threads[t].seen| == k
    requires InAlloc(StateAt(s, front + [last], |front| + 1).threads[t])
    ensures Inspected(s, front + [last], t, k, Run(s, front).slots[k].status)
  {
    LastTurn(s, front, last);
    assert SlotInv(Run(s, front), k);
    assert StateAt(s, front + [last], |front|) == Run(s, front);
    forall m: nat | |front| <= m <= |front| + 1 ensures InAlloc(StateAt(s, front + [last], m).threads[t]) {
      assert m == |front| || m == |front| + 1;
    }
    assert InspectedAt(s, front + [last], |front|, t, k, Run(s, front).slots[k].status);
  }

  lemma RecordedNext(s: State, front: seq<Turn>, last: Turn, t: nat)
    requires CanRun(s, front + [last]) && CanRun(s, front) && t < |s.threads| && |s.slots| == ALL
    requires Inv(Run(s, front)) && Recorded(s, front, t)
    ensures Recorded(s, front + [last], t)
  {
    var turns := front + [last];
    LastTurn(s, front, last);
    AtTheEnd(s, turns);
    var pc, pc' := Run(s, front).threads[t], Run(s, turns).threads[t];
    if InAlloc(pc') && PcFormed(pc') {
      AllocStep(Run(s, front), last.t, last.choice, t);
      forall k: nat | k < |pc'.seen| ensures Inspected(s, turns, t, k, pc'.seen[k]) {
        if k < |pc.seen| {
          InspectedStill(s, front, last, t, k, pc.seen[k]);
        } else {
          InspectsNow(s, front, last, t, k);
        }
      }
      if Found(pc') {
        if Found(pc) {
          InspectedStill(s, front, last, t, |pc.seen|, Free);
        } else {
          InspectsNow(s, front, last, t, |pc.seen|);
        }
      }
    }
  }

  lemma {:induction false} AtTheEnd(s: State, turns: seq<Turn>)
    requires CanRun(s, turns)
    ensures StateAt(s, turns, |turns|) == Run(s, turns)
    decreases |turns|
  {
    if turns != [] {
      AtTheEnd(Step(s, turns[0].t, turns[0].choice).value, turns[1..]);
    }
  }

  lemma {:induction false} RunRecords(s: State, turns: seq<Turn>, t: nat)
    requires Inv(s) && CanRun(s, turns) && t < |s.threads| && s.threads[t].Idle?
    ensures Recorded(s, turns, t)
    decreases |turns|
  {
    if turns != [] {
      var front, last := turns[..|turns| - 1], turns[|turns| - 1];
      assert turns == front + [last];
      LastTurn(s, front, last);
      RunRecords(s, front, t);
      RunKeeps(s, front);
      RecordedNext(s, front, last, t);
    }
  }

  /** An allocation that returns -1 has found every slot non-free, each at the moment of the
      run when it held that slot's lock and looked; one that returns i has found every slot
      before i non-free in that way, and slot i free. */
  lemma AllocationResult(threads: nat, turns: seq<Turn>, t: nat)
    requires CanRun(Start(threads), turns) && t < threads
    requires Run(Start(threads), turns).threads[t].AllocDone?
    ensures
      var result := Run(Start(threads), turns).threads[t].result;
      && -1 <= result < MAX_USER
      && (forall k: nat :: k < (if result == -1 then MAX_USER else result) ==>
            InspectedTaken(Start(threads), turns, t, k))
      && (result != -1 ==> Inspected(Start(threads), turns, t, result, Free))
  {
    var s := Start(threads);
    StartInv(threads);
    RunKeeps(s, turns);
    RunRecords(s, turns, t);
    AtTheEnd(s, turns);
    var pc := Run(s, turns).threads[t];
    assert PcFormed(pc) && InAlloc(pc);
    forall k: nat | k < |pc.seen| ensures InspectedTaken(s, turns, t, k) {
      assert pc.seen[k] in pc.seen && Inspected(s, turns, t, k, pc.seen[k]);
    }
  }

  // ------------------------------------------------- locks

  // The session lock a thread is about to ask for, if any.
  function WantsSession(pc: Pc): Option<nat> {
    match pc
    case AllocWant(seen) => Some(|seen|)
    case LoginWant(c) => Some(c)
    case TellWant(c, i) => if i == MAX_USER || i == c then None else Some(i)
    case ShowWant(c, i) => if i == ALL || i == c then None else Some(i)
    case MoveWant(i) => if i == MAX_USER then None else Some(i)
    case DropWant(c) => Some(c)
    case TidyWant(c, i) => if i == ALL || i == c then None else Some(i)
    case _ => None
  }

  function WantsView(pc: Pc): Option<nat> {
    match pc
    case TellWantView(_, i) => Some(i)
    case ShowWantView(c, _) => Some(c)
    case NpcWant(targets) => if targets == [] then None else Some(targets[0])
    case _ => None
  }

  /** The discipline: a thread that asks for a session lock holds no lock at all, one that
      asks for a view lock holds no other view lock, and these requests are all that can
      hold a busy thread up. */
  lemma LockDiscipline(s: State, t: nat, near: bool)
    requires |s.slots| == ALL && t < |s.threads| && PcFormed(s.threads[t]) && !s.threads[t].Idle?
    ensures
      var pc := s.threads[t];
      && (WantsSession(pc).Some? ==> HoldsSession(pc).None? && HoldsView(pc).None? && WantsView(pc).None?)
      && (WantsView(pc).Some? ==> HoldsView(pc).None?)
      && (WantsSession(pc).Some? ==> WantsSession(pc).value < ALL)
      && (WantsView(pc).Some? ==> WantsView(pc).value < ALL)
      && (Proceed(s, t, near).None? <==>
            || (WantsSession(pc).Some? && s.slots[WantsSession(pc).value].sl.Some?)
            || (WantsView(pc).Some? && s.slots[WantsView(pc).value].vl.Some?))
  {
    match s.threads[t]
    case NpcWant(targets) =>
      if targets != [] {
        assert targets[0] in targets;
      }
    case NpcUnlock(targets) => assert targets[0] in targets;
    case _ =>
  }

  /** Mutual exclusion: under every interleaving no two threads hold the same slot's session
      lock, none the same slot's view lock, and the mutexes themselves say who holds them. */
  lemma LocksExclude(threads: nat, turns: seq<Turn>, t: nat, u: nat)
    requires CanRun(Start(threads), turns) && t < threads && u < threads && t != u
    ensures
      var s := Run(Start(threads), turns);
      var a, b := s.threads[t], s.threads[u];
      && (HoldsSession(a).Some? ==> HoldsSession(a) != HoldsSession(b))
      && (HoldsView(a).Some? ==> HoldsView(a) != HoldsView(b))
      && (forall i: nat :: i < ALL ==>
            && (s.slots[i].sl == Some(t) <==> HoldsSession(a) == Some(i))
            && (s.slots[i].vl == Some(t) <==> HoldsView(a) == Some(i)))
  {
    StartInv(threads);
    RunKeeps(Start(threads), turns);
    var s := Run(Start(threads), turns);
    forall i: nat | i < ALL
      ensures (s.slots[i].sl == Some(t) <==> HoldsSession(s.threads[t]) == Some(i))
      ensures (s.slots[i].vl == Some(t) <==> HoldsView(s.threads[t]) == Some(i))
    {
      assert SlotInv(s, i);
    }
    HeldInRange(s, t);
    if HoldsSession(s.threads[t]).Some? {
      assert SlotInv(s, HoldsSession(s.threads[t]).value);
    }
    if HoldsView(s.threads[t]).Some? {
      assert SlotInv(s, HoldsView(s.threads[t]).value);
    }
  }

  lemma HeldInRange(s: State, t: nat)
    requires t < |s.threads| && PcFormed(s.threads[t])
    ensures HoldsSession(s.threads[t]).Some? ==> HoldsSession(s.threads[t]).value < ALL
    ensures HoldsView(s.threads[t]).Some? ==> HoldsView(s.threads[t]).value < ALL
  {
    match s.threads[t]
    case NpcUnlock(targets) => assert targets[0] in targets;
    case _ =>
  }

  predicate Busy(s: State, t: nat) {
    t < |s.threads| && !s.threads[t].Idle?
  }

  // A busy thread that can take its step at once, found by following who holds what.
  lemma SomeThreadProceeds(s: State, t: nat, near: bool) returns (u: nat)
    requires Inv(s) && Busy(s, t)
    ensures Busy(s, u) && Proceed(s, u, near).Some?
  {
    u := t;
    LockDiscipline(s, u, near);
    if Proceed(s, u, near).None? && WantsSession(s.threads[u]).Some? {
      var i := WantsSession(s.threads[u]).value;
      assert SlotInv(s, i);
      u := s.slots[i].sl.value;
      assert HoldsSession(s.threads[u]) == Some(i);
      LockDiscipline(s, u, near);
    }
    if Proceed(s, u, near).None? {
      var i := WantsView(s.threads[u]).value;
      assert SlotInv(s, i);
      u := s.slots[i].vl.value;
      assert HoldsView(s.threads[u]) == Some(i);
      LockDiscipline(s, u, near);
    }
  }

  /** Deadlock freedom: in every reachable state with a busy thread, some busy thread can
      take its step at once. */
  lemma DeadlockFreedom(threads: nat, turns: seq<Turn>, near: bool)
    requires CanRun(Start(threads), turns)
    requires exists t: nat :: Busy(Run(Start(threads), turns), t)
    ensures exists u: nat :: Busy(Run(Start(threads), turns), u)
              && Possible(Run(Start(threads), turns), u, Go(near))
              && Step(Run(Start(threads), turns), u, Go(near)).Some?
  {
    StartInv(threads);
    RunKeeps(Start(threads), turns);
    var s := Run(Start(threads), turns);
    var t: nat :| Busy(s, t);
    var u := SomeThreadProceeds(s, t, near);
    assert Possible(s, u, Go(near)) && Step(s, u, Go(near)).Some?;
  }

  // ------------------------------------------------- everything ends

  // The most steps a thread can still take before it is idle again.
  function Rank(pc: Pc): nat
    requires PcFormed(pc)
  {
    match pc
    case Idle => 0
    case AllocWant(seen) => 4 * (MAX_USER - |seen|) + 1
    case AllocTest(seen) => 4 * (MAX_USER - |seen|)
    case AllocTake(_) => 3
    case AllocGive(_) => 2
    case AllocPass(seen) => 4 * (MAX_USER - |seen|) + 2
    case AllocDone(_, _) => 1
    case LoginWant(_) => 5 * MAX_USER + 5 * ALL + 6
    case LoginTest(_) => 5 * MAX_USER + 5 * ALL + 5
    case LoginLeave(_, _) => 2 * ALL + 6
    case LoginEnter(_) => 5 * MAX_USER + 5 * ALL + 4
    case LoginUnlock(_) => 5 * MAX_USER + 5 * ALL + 3
    case TellWant(_, i) => 5 * (MAX_USER - i) + 5 * ALL + 2
    case TellTest(_, i) => 5 * (MAX_USER - i) + 5 * ALL + 1
    case TellWantView(_, i) => 5 * (MAX_USER - i) + 5 * ALL
    case TellUnlockView(_, i) => 5 * (MAX_USER - i) + 5 * ALL - 1
    case TellUnlock(_, i) => 5 * (MAX_USER - i) + 5 * ALL - 2
    case ShowWant(_, i) => 5 * (ALL - i) + 1
    case ShowTest(_, i) => 5 * (ALL - i)
    case ShowWantView(_, i) => 5 * (ALL - i) - 1
    case ShowUnlockView(_, i) => 5 * (ALL - i) - 2
    case ShowUnlock(_, i) => 5 * (ALL - i) - 3
    case MoveWant(i) => 2 * (MAX_USER - i) + 1
    case MoveUnlock(i) => 2 * (MAX_USER - i)
    case DropWant(_) => 2 * ALL + 5
    case DropTest(_) => 2 * ALL + 4
    case DropLeave(_) => 1
    case DropFree(_) => 2 * ALL + 3
    case DropUnlock(_) => 2 * ALL + 2
    case TidyWant(_, i) => 2 * (ALL - i) + 1
    case TidyUnlock(_, i) => 2 * (ALL - i)
    case NpcWant(targets) => 2 * |targets| + 1
    case NpcUnlock(targets) => 2 * |targets|
  }

  lemma AllocRankFalls(s: State, t: nat)
    requires |s.slots| == ALL && t < |s.threads| && PcFormed(s.threads[t]) && ProceedAlloc(s, t).Some?
    requires InAlloc(s.threads[t])
    requires PcFormed(ProceedAlloc(s, t).value.threads[t])
    ensures Rank(ProceedAlloc(s, t).value.threads[t]) < Rank(s.threads[t])
  {
  }

  lemma LoginRankFalls(s: State, t: nat)
    requires |s.slots| == ALL && t < |s.threads| && PcFormed(s.threads[t]) && ProceedLogin(s, t).Some?
    requires InLogin(s.threads[t])
    requires PcFormed(ProceedLogin(s, t).value.threads[t])
    ensures Rank(ProceedLogin(s, t).value.threads[t]) < Rank(s.threads[t])
  {
  }

  lemma TellRankFalls(s: State, t: nat, near: bool)
    requires |s.slots| == ALL && t < |s.threads| && PcFormed(s.threads[t]) && ProceedTell(s, t, near).Some?
    requires InTell(s.threads[t])
    requires PcFormed(ProceedTell(s, t, near).value.threads[t])
    ensures Rank(ProceedTell(s, t, near).value.threads[t]) < Rank(s.threads[t])
  {
  }

  lemma ShowRankFalls(s: State, t: nat, near: bool)
    requires |s.slots| == ALL && t < |s.threads| && PcFormed(s.threads[t]) && ProceedShow(s, t, near).Some?
    requires InShow(s.threads[t])
    requires PcFormed(ProceedShow(s, t, near).value.threads[t])
    ensures Rank(ProceedShow(s, t, near).value.threads[t]) < Rank(s.threads[t])
  {
  }

  lemma DropRankFalls(s: State, t: nat)
    requires |s.slots| == ALL && t < |s.threads| && PcFormed(s.threads[t]) && ProceedDrop(s, t).Some?
    requires InDrop(s.threads[t])
    requires PcFormed(ProceedDrop(s, t).value.threads[t])
    ensures Rank(ProceedDrop(s, t).value.threads[t]) < Rank(s.threads[t])
  {
  }

  lemma RoundRankFalls(s: State, t: nat)
    requires |s.slots| == ALL && t < |s.threads| && PcFormed(s.threads[t]) && ProceedRound(s, t).Some?
    requires InRound(s.threads[t])
    requires PcFormed(ProceedRound(s, t).value.threads[t])
    ensures Rank(ProceedRound(s, t).value.threads[t]) < Rank(s.threads[t])
  {
  }

  lemma RankFalls(s: State, t: nat, near: bool)
    requires |s.slots| == ALL && Busy(s, t) && PcFormed(s.threads[t]) && Proceed(s, t, near).Some?
    requires PcFormed(Proceed(s, t, near).value.threads[t])
    ensures Rank(Proceed(s, t, near).value.threads[t]) < Rank(s.threads[t])
  {
    var pc := s.threads[t];
    if InAlloc(pc) {
      AllocRankFalls(s, t);
    } else if InLogin(pc) {
      LoginRankFalls(s, t);
    } else if InTell(pc) {
      TellRankFalls(s, t, near);
    } else if InShow(pc) {
      ShowRankFalls(s, t, near);
    } else if InDrop(pc) {
      DropRankFalls(s, t);
    } else {
      RoundRankFalls(s, t);
    }
  }

  function TotalRank(pcs: seq<Pc>): nat
    requires forall pc <- pcs :: PcFormed(pc)
  {
    if pcs == [] then 0 else Rank(pcs[0]) + TotalRank(pcs[1..])
  }

  lemma {:induction false} TotalFalls(pcs: seq<Pc>, pcs': seq<Pc>, t: nat)
    requires |pcs| == |pcs'| && t < |pcs|
    requires (forall pc <- pcs :: PcFormed(pc)) && (forall pc <- pcs' :: PcFormed(pc))
    requires forall u :: 0 <= u < |pcs| && u != t ==> pcs'[u] == pcs[u]
    requires Rank(pcs'[t]) < Rank(pcs[t])
    ensures TotalRank(pcs') < TotalRank(pcs)
    decreases |pcs|
  {
    if t == 0 {
      assert pcs'[1..] == pcs[1..];
    } else {
      assert pcs'[0] == pcs[0];
      TotalFalls(pcs[1..], pcs'[1..], t - 1);
    }
  }

  lemma AllFormed(s: State)
    requires Inv(s)
    ensures forall pc <- s.threads :: PcFormed(pc)
  {
  }

  // The most steps all threads together can still take if none starts anything new.
  ghost function Work(s: State): nat
    requires Inv(s)
  {
    AllFormed(s);
    TotalRank(s.threads)
  }

  lemma WorkFalls(s: State, t: nat, near: bool)
    requires Inv(s) && Busy(s, t) && Proceed(s, t, near).Some?
    ensures Inv(Proceed(s, t, near).value) && Work(Proceed(s, t, near).value) < Work(s)
  {
    var s' := Proceed(s, t, near).value;
    OperationKeeps(s, t, near);
    AllFormed(s);
    AllFormed(s');
    RankFalls(s, t, near);
    TotalFalls(s.threads, s'.threads, t);
  }

  /** No endless run: however the threads are interleaved and whatever the distance tests
      find, operations already begun take at most Work(s) more steps in all. */
  lemma {:induction false} NoEndlessRun(s: State, turns: seq<Turn>)
    requires Inv(s) && CanRun(s, turns) && forall turn <- turns :: turn.choice.Go?
    ensures |turns| <= Work(s)
    decreases |turns|
  {
    if turns != [] {
      var turn := turns[0];
      assert turn in turns;
      WorkFalls(s, turn.t, turn.choice.near);
      NoEndlessRun(Step(s, turn.t, turn.choice).value, turns[1..]);
    }
  }

  /** ... and they all end: from every reachable state some schedule of the busy threads
      brings every thread back to idle within that many steps. */
  lemma {:induction false} EverythingEnds(s: State, near: bool) returns (turns: seq<Turn>)
    requires Inv(s)
    ensures CanRun(s, turns) && forall t: nat :: !Busy(Run(s, turns), t)
    ensures |turns| <= Work(s)
    decreases Work(s)
  {
    if t: nat :| Busy(s, t) {
      var u := SomeThreadProceeds(s, t, near);
      WorkFalls(s, u, near);
      var s' := Proceed(s, u, near).value;
      assert Step(s, u, Go(near)) == Some(s');
      var rest := EverythingEnds(s', near);
      turns := [Turn(u, Go(near))] + rest;
      assert turns[1..] == rest;
    } else {
      turns := [];
    }
  }

  /** Both from every state that threads reach: whatever is begun takes a bounded number of
      steps, and some schedule within that bound brings every thread back to idle. */
  lemma EverythingEndsReached(threads: nat, turns: seq<Turn>, more: seq<Turn>, near: bool)
    returns (schedule: seq<Turn>)
    requires CanRun(Start(threads), turns)
    ensures
      var s := Reached(threads, turns);
      && (CanRun(s, more) && (forall turn <- more :: turn.choice.Go?) ==> |more| <= Work(s))
      && CanRun(s, schedule) && |schedule| <= Work(s) && forall t: nat :: !Busy(Run(s, schedule), t)
  {
    var s := Reached(threads, turns);
    if CanRun(s, more) && forall turn <- more :: turn.choice.Go? {
      NoEndlessRun(s, more);
    }
    schedule := EverythingEnds(s, near);
  }
}
