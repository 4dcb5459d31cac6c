/** Every step keeps the lock discipline; what follows for slots and for progress. */
module SessionLocksProofs {
  import opened SessionLocks

  // ------------------------------------------------- the kinds of step

  lemma MoveOnKeeps(s: State, t: nat, pc: Pc)
    requires Inv(s) && t < |s.threads|
    requires PcFormed(pc) && Warranted(s, pc)
    requires HoldsSession(pc) == HoldsSession(s.threads[t]) && HoldsView(pc) == HoldsView(s.threads[t])
    ensures Inv(At(s, t, pc))
  {
    var s' := At(s, t, pc);
    forall i: nat | i < ALL ensures SlotInv(s', i) {
      assert SlotInv(s, i);
    }
  }

  lemma LockSessionSlot(s: State, t: nat, i: nat, pc: Pc, j: nat)
    requires t < |s.threads| && i < |s.slots| && j < |s.slots| && s.slots[i].sl.None?
    requires HoldsSession(s.threads[t]).None? && HoldsSession(pc) == Some(i)
    requires HoldsView(pc) == HoldsView(s.threads[t])
    requires SlotInv(s, i) && SlotInv(s, j)
    ensures SlotInv(LockSession(s, t, i, pc).value, j)
  {
  }

  lemma LockSessionKeeps(s: State, t: nat, i: nat, pc: Pc)
    requires Inv(s) && t < |s.threads| && i < ALL && s.slots[i].sl.None?
    requires PcFormed(pc) && Warranted(s, pc)
    requires HoldsSession(s.threads[t]).None? && HoldsSession(pc) == Some(i)
    requires HoldsView(pc) == HoldsView(s.threads[t])
    ensures Inv(LockSession(s, t, i, pc).value)
  {
    var s' := LockSession(s, t, i, pc).value;
    forall j: nat | j < ALL ensures SlotInv(s', j) {
      assert SlotInv(s, i) && SlotInv(s, j);
      LockSessionSlot(s, t, i, pc, j);
    }
    forall u: nat | u < |s'.threads| ensures PcFormed(s'.threads[u]) && Warranted(s', s'.threads[u]) {
      assert u != t ==> PcFormed(s.threads[u]) && Warranted(s, s.threads[u]);
    }
  }

  lemma UnlockSessionKeeps(s: State, t: nat, i: nat, pc: Pc)
    requires Inv(s) && t < |s.threads| && i < ALL
    requires PcFormed(pc) && Warranted(s, pc)
    requires HoldsSession(s.threads[t]) == Some(i) && HoldsSession(pc).None?
    requires HoldsView(pc) == HoldsView(s.threads[t])
    ensures Inv(UnlockSession(s, t, i, pc).value)
  {
    var s' := UnlockSession(s, t, i, pc).value;
    forall j: nat | j < ALL ensures SlotInv(s', j) {
      assert SlotInv(s, j);
    }
  }

  lemma LockViewKeeps(s: State, t: nat, i: nat, pc: Pc)
    requires Inv(s) && t < |s.threads| && i < ALL && s.slots[i].vl.None?
    requires PcFormed(pc) && Warranted(s, pc)
    requires HoldsView(s.threads[t]).None? && HoldsView(pc) == Some(i)
    requires HoldsSession(pc) == HoldsSession(s.threads[t])
    ensures Inv(LockView(s, t, i, pc).value)
  {
    var s' := LockView(s, t, i, pc).value;
    forall j: nat | j < ALL ensures SlotInv(s', j) {
      assert SlotInv(s, j);
    }
  }

  lemma UnlockViewKeeps(s: State, t: nat, i: nat, pc: Pc)
    requires Inv(s) && t < |s.threads| && i < ALL
    requires PcFormed(pc) && Warranted(s, pc)
    requires HoldsView(s.threads[t]) == Some(i) && HoldsView(pc).None?
    requires HoldsSession(pc) == HoldsSession(s.threads[t])
    ensures Inv(UnlockView(s, t, i, pc).value)
  {
    var s' := UnlockView(s, t, i, pc).value;
    forall j: nat | j < ALL ensures SlotInv(s', j) {
      assert SlotInv(s, j);
    }
  }

  // The slot whose status a thread has warranted is one whose session lock it holds.
  lemma WarrantNeedsLock(s: State, u: nat, i: nat, status: Status, change: Change, t: nat, pc: Pc)
    requires Inv(s) && t < |s.threads| && u < |s.threads| && u != t && i < ALL
    requires HoldsSession(s.threads[t]) == Some(i)
    ensures Warranted(SetStatus(s, t, i, status, change, pc).value, s.threads[u])
  {
    assert SlotInv(s, i);
    assert s.slots[i].sl == Some(t);
    assert HoldsSession(s.threads[u]) != Some(i);
  }

  predicate InOrder(from: Status, change: Change, to: Status) {
    || (change.Taken? && from == Free && to == Accepted)
    || (change.Entered? && from == Accepted && to == InGame)
    || (change.Freed? && from != Free && to == Free)
  }

  lemma SetStatusSlot(s: State, t: nat, i: nat, status: Status, change: Change, pc: Pc, j: nat)
    requires t < |s.threads| && i < |s.slots| && j < |s.slots|
    requires HoldsSession(pc) == HoldsSession(s.threads[t]) && HoldsView(pc) == HoldsView(s.threads[t])
    requires InOrder(s.slots[i].status, change, status) && SlotInv(s, j)
    ensures SlotInv(SetStatus(s, t, i, status, change, pc).value, j)
  {
    var log := s.slots[j].log;
    assert (log + [change])[..|log|] == log;
  }

  lemma SetStatusKeeps(s: State, t: nat, i: nat, status: Status, change: Change, pc: Pc)
    requires Inv(s) && t < |s.threads| && i < ALL
    requires PcFormed(pc) && (pc.AllocGive? || pc.LoginUnlock? || pc.DropUnlock?)
    requires HoldsSession(s.threads[t]) == Some(i) && HoldsSession(pc) == Some(i)
    requires HoldsView(pc) == HoldsView(s.threads[t])
    requires InOrder(s.slots[i].status, change, status)
    ensures Inv(SetStatus(s, t, i, status, change, pc).value)
  {
    var s' := SetStatus(s, t, i, status, change, pc).value;
    forall u: nat | u < |s'.threads| ensures PcFormed(s'.threads[u]) && Warranted(s', s'.threads[u]) {
      if u != t {
        WarrantNeedsLock(s, u, i, status, change, t, pc);
      }
    }
    forall j: nat | j < ALL ensures SlotInv(s', j) {
      assert SlotInv(s, j);
      SetStatusSlot(s, t, i, status, change, pc, j);
    }
  }

  // ------------------------------------------------- the operations, one by one

  lemma AllocScanKeeps(s: State, t: nat)
    requires Inv(s) && t < |s.threads| && ProceedAlloc(s, t).Some?
    requires (var pc := s.threads[t]; pc.AllocWant? || pc.AllocTest? || pc.AllocPass?)
    ensures Inv(ProceedAlloc(s, t).value)
  {
    match s.threads[t]
    case AllocWant(seen) => LockSessionKeeps(s, t, |seen|, AllocTest(seen));
    case AllocTest(seen) =>
      var status := s.slots[|seen|].status;
      MoveOnKeeps(s, t, if status == Free then AllocTake(seen) else AllocPass(seen + [status]));
    case AllocPass(seen) =>
      UnlockSessionKeeps(s, t, |seen| - 1, if |seen| < MAX_USER then AllocWant(seen) else AllocDone(-1, seen));
  }

  lemma AllocTakeKeeps(s: State, t: nat)
    requires Inv(s) && t < |s.threads| && ProceedAlloc(s, t).Some?
    requires (var pc := s.threads[t]; pc.AllocTake? || pc.AllocGive? || pc.AllocDone?)
    ensures Inv(ProceedAlloc(s, t).value)
  {
    match s.threads[t]
    case AllocTake(seen) => SetStatusKeeps(s, t, |seen|, Accepted, Taken(t), AllocGive(seen));
    case AllocGive(seen) => UnlockSessionKeeps(s, t, |seen|, AllocDone(|seen|, seen));
    case AllocDone(_, _) => MoveOnKeeps(s, t, Idle);
  }

  lemma LoginKeeps(s: State, t: nat)
    requires Inv(s) && t < |s.threads| && ProceedLogin(s, t).Some?
    requires InLogin(s.threads[t])
    ensures Inv(ProceedLogin(s, t).value)
  {
    match s.threads[t]
    case LoginWant(c) => LockSessionKeeps(s, t, c, LoginTest(c));
    case LoginTest(c) =>
      MoveOnKeeps(s, t, match s.slots[c].status
                        case Free => LoginLeave(c, false)
                        case InGame => LoginLeave(c, true)
                        case Accepted => LoginEnter(c));
    case LoginLeave(c, again) => UnlockSessionKeeps(s, t, c, if again then DropWant(c) else Idle);
    case LoginEnter(c) => SetStatusKeeps(s, t, c, InGame, Entered, LoginUnlock(c));
    case LoginUnlock(c) => UnlockSessionKeeps(s, t, c, TellWant(c, 0));
  }

  lemma TellLoopKeeps(s: State, t: nat, near: bool)
    requires Inv(s) && t < |s.threads| && ProceedTell(s, t, near).Some?
    requires (var pc := s.threads[t]; pc.TellWant? || pc.TellTest?)
    ensures Inv(ProceedTell(s, t, near).value)
  {
    match s.threads[t]
    case TellWant(c, i) =>
      if i == MAX_USER {
        MoveOnKeeps(s, t, ShowWant(c, 0));
      } else if i == c {
        assert ProceedTell(s, t, near) == Some(At(s, t, TellWant(c, i + 1)));
        MoveOnKeeps(s, t, TellWant(c, i + 1));
      } else {
        assert ProceedTell(s, t, near) == LockSession(s, t, i, TellTest(c, i));
        LockSessionKeeps(s, t, i, TellTest(c, i));
      }
    case TellTest(c, i) =>
      MoveOnKeeps(s, t, if s.slots[i].status == InGame && near then TellWantView(c, i) else TellUnlock(c, i));
  }

  lemma TellEditKeeps(s: State, t: nat, near: bool)
    requires Inv(s) && t < |s.threads| && ProceedTell(s, t, near).Some?
    requires (var pc := s.threads[t]; pc.TellWantView? || pc.TellUnlockView? || pc.TellUnlock?)
    ensures Inv(ProceedTell(s, t, near).value)
  {
    match s.threads[t]
    case TellWantView(c, i) =>
      assert ProceedTell(s, t, near) == LockView(s, t, i, TellUnlockView(c, i));
      LockViewKeeps(s, t, i, TellUnlockView(c, i));
    case TellUnlockView(c, i) =>
      assert ProceedTell(s, t, near) == UnlockView(s, t, i, TellUnlock(c, i));
      UnlockViewKeeps(s, t, i, TellUnlock(c, i));
    case TellUnlock(c, i) =>
      assert ProceedTell(s, t, near) == UnlockSession(s, t, i, TellWant(c, i + 1));
      UnlockSessionKeeps(s, t, i, TellWant(c, i + 1));
  }

  lemma ShowLoopKeeps(s: State, t: nat, near: bool)
    requires Inv(s) && t < |s.threads| && ProceedShow(s, t, near).Some?
    requires (var pc := s.threads[t]; pc.ShowWant? || pc.ShowTest?)
    ensures Inv(ProceedShow(s, t, near).value)
  {
    match s.threads[t]
    case ShowWant(c, i) =>
      if i == ALL {
        MoveOnKeeps(s, t, Idle);
      } else if i == c {
        assert ProceedShow(s, t, near) == Some(At(s, t, ShowWant(c, i + 1)));
        MoveOnKeeps(s, t, ShowWant(c, i + 1));
      } else {
        assert ProceedShow(s, t, near) == LockSession(s, t, i, ShowTest(c, i));
        LockSessionKeeps(s, t, i, ShowTest(c, i));
      }
    case ShowTest(c, i) =>
      MoveOnKeeps(s, t, if s.slots[i].status == InGame && near then ShowWantView(c, i) else ShowUnlock(c, i));
  }

  lemma ShowEditKeeps(s: State, t: nat, near: bool)
    requires Inv(s) && t < |s.threads| && ProceedShow(s, t, near).Some?
    requires (var pc := s.threads[t]; pc.ShowWantView? || pc.ShowUnlockView? || pc.ShowUnlock?)
    ensures Inv(ProceedShow(s, t, near).value)
  {
    match s.threads[t]
    case ShowWantView(c, i) =>
      assert ProceedShow(s, t, near) == LockView(s, t, c, ShowUnlockView(c, i));
      LockViewKeeps(s, t, c, ShowUnlockView(c, i));
    case ShowUnlockView(c, i) =>
      assert ProceedShow(s, t, near) == UnlockView(s, t, c, ShowUnlock(c, i));
      UnlockViewKeeps(s, t, c, ShowUnlock(c, i));
    case ShowUnlock(c, i) =>
      assert ProceedShow(s, t, near) == UnlockSession(s, t, i, ShowWant(c, i + 1));
      UnlockSessionKeeps(s, t, i, ShowWant(c, i + 1));
  }

  lemma DropKeeps(s: State, t: nat)
    requires Inv(s) && t < |s.threads| && ProceedDrop(s, t).Some?
    requires (var pc := s.threads[t]; pc.DropWant? || pc.DropTest? || pc.DropLeave? || pc.DropFree? || pc.DropUnlock?)
    ensures Inv(ProceedDrop(s, t).value)
  {
    match s.threads[t]
    case DropWant(c) => LockSessionKeeps(s, t, c, DropTest(c));
    case DropTest(c) => MoveOnKeeps(s, t, if s.slots[c].status == Free then DropLeave(c) else DropFree(c));
    case DropLeave(c) => UnlockSessionKeeps(s, t, c, Idle);
    case DropFree(c) => SetStatusKeeps(s, t, c, Free, Freed, DropUnlock(c));
    case DropUnlock(c) => UnlockSessionKeeps(s, t, c, TidyWant(c, 0));
  }

  lemma TidyKeeps(s: State, t: nat)
    requires Inv(s) && t < |s.threads| && ProceedDrop(s, t).Some?
    requires (var pc := s.threads[t]; pc.TidyWant? || pc.TidyUnlock?)
    ensures Inv(ProceedDrop(s, t).value)
  {
    match s.threads[t]
    case TidyWant(c, i) =>
      if i == ALL {
        MoveOnKeeps(s, t, Idle);
      } else if i == c {
        assert ProceedDrop(s, t) == Some(At(s, t, TidyWant(c, i + 1)));
        MoveOnKeeps(s, t, TidyWant(c, i + 1));
      } else {
        assert ProceedDrop(s, t) == LockSession(s, t, i, TidyUnlock(c, i));
        LockSessionKeeps(s, t, i, TidyUnlock(c, i));
      }
    case TidyUnlock(c, i) =>
      assert ProceedDrop(s, t) == UnlockSession(s, t, i, TidyWant(c, i + 1));
      UnlockSessionKeeps(s, t, i, TidyWant(c, i + 1));
  }

  lemma MoveKeeps(s: State, t: nat)
    requires Inv(s) && t < |s.threads| && ProceedRound(s, t).Some?
    requires (var pc := s.threads[t]; pc.MoveWant? || pc.MoveUnlock?)
    ensures Inv(ProceedRound(s, t).value)
  {
    match s.threads[t]
    case MoveWant(i) =>
      if i == MAX_USER {
        MoveOnKeeps(s, t, Idle);
      } else {
        LockSessionKeeps(s, t, i, MoveUnlock(i));
      }
    case MoveUnlock(i) => UnlockSessionKeeps(s, t, i, MoveWant(i + 1));
  }

  lemma NpcKeeps(s: State, t: nat)
    requires Inv(s) && t < |s.threads| && ProceedRound(s, t).Some?
    requires (var pc := s.threads[t]; pc.NpcWant? || pc.NpcUnlock?)
    ensures Inv(ProceedRound(s, t).value)
  {
    match s.threads[t]
    case NpcWant(targets) =>
      if targets == [] {
        MoveOnKeeps(s, t, Idle);
      } else {
        assert targets[0] in targets;
        LockViewKeeps(s, t, targets[0], NpcUnlock(targets));
      }
    case NpcUnlock(targets) =>
      assert targets[0] in targets;
      assert PcFormed(NpcWant(targets[1..])) by {
        assert forall p <- targets[1..] :: p in targets;
      }
      UnlockViewKeeps(s, t, targets[0], NpcWant(targets[1..]));
  }

  lemma OperationKeeps(s: State, t: nat, near: bool)
    requires Inv(s) && t < |s.threads| && Proceed(s, t, near).Some?
    ensures Inv(Proceed(s, t, near).value)
  {
    var pc := s.threads[t];
    if pc.AllocWant? || pc.AllocTest? || pc.AllocPass? {
      AllocScanKeeps(s, t);
    } else if InAlloc(pc) {
      AllocTakeKeeps(s, t);
    } else if InLogin(pc) {
      LoginKeeps(s, t);
    } else if pc.TellWant? || pc.TellTest? {
      TellLoopKeeps(s, t, near);
    } else if InTell(pc) {
      TellEditKeeps(s, t, near);
    } else if pc.ShowWant? || pc.ShowTest? {
      ShowLoopKeeps(s, t, near);
    } else if InShow(pc) {
      ShowEditKeeps(s, t, near);
    } else if pc.TidyWant? || pc.TidyUnlock? {
      TidyKeeps(s, t);
    } else if InDrop(pc) {
      DropKeeps(s, t);
    } else if pc.MoveWant? || pc.MoveUnlock? {
      MoveKeeps(s, t);
    } else {
      NpcKeeps(s, t);
    }
  }

  lemma StepKeeps(s: State, t: nat, choice: Choice)
    requires Inv(s) && Possible(s, t, choice) && Step(s, t, choice).Some?
    ensures Inv(Step(s, t, choice).value)
  {
    if s.threads[t].Idle? {
      MoveOnKeeps(s, t, Step(s, t, choice).value.threads[t]);
    } else {
      OperationKeeps(s, t, choice.near);
    }
  }
}
