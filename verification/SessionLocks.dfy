/** The slots of the chess server under any number of threads: every lock, test, write and
    unlock of its operations is a step of its own. */
module SessionLocks {

  const MAX_USER: nat := 1000
  const NUM_NPC: nat := 200000
  const ALL: nat := MAX_USER + NUM_NPC

  datatype Option<+T> = None | Some(value: T)

  datatype Status = Free | Accepted | InGame

  // What has happened to a slot's status, and which thread took it.
  datatype Change = Taken(t: nat) | Entered | Freed

  // `sl` and `vl` are the two mutexes of a slot, each with the thread that holds it.
  datatype Slot = Slot(status: Status, sl: Option<nat>, vl: Option<nat>, log: seq<Change>)

  /** Where a thread stands. A `Want` is about to lock, a `Leave`, `Give`, `Pass` or
      `Unlock` about to unlock. Arguments: c the client an operation is about, i the slot
      a loop has come to, `seen` the statuses an allocation has inspected. */
  datatype Pc =
    | Idle
    | AllocWant(seen: seq<Status>) | AllocTest(seen: seq<Status>) | AllocTake(seen: seq<Status>)
    | AllocGive(seen: seq<Status>) | AllocPass(seen: seq<Status>) | AllocDone(result: int, seen: seq<Status>)
    | LoginWant(c: nat) | LoginTest(c: nat) | LoginLeave(c: nat, again: bool)
    | LoginEnter(c: nat) | LoginUnlock(c: nat)
    | TellWant(c: nat, i: nat) | TellTest(c: nat, i: nat) | TellWantView(c: nat, i: nat)
    | TellUnlockView(c: nat, i: nat) | TellUnlock(c: nat, i: nat)
    | ShowWant(c: nat, i: nat) | ShowTest(c: nat, i: nat) | ShowWantView(c: nat, i: nat)
    | ShowUnlockView(c: nat, i: nat) | ShowUnlock(c: nat, i: nat)
    | MoveWant(i: nat) | MoveUnlock(i: nat)
    | DropWant(c: nat) | DropTest(c: nat) | DropLeave(c: nat) | DropFree(c: nat) | DropUnlock(c: nat)
    | TidyWant(c: nat, i: nat) | TidyUnlock(c: nat, i: nat)
    | NpcWant(targets: seq<nat>) | NpcUnlock(targets: seq<nat>)

  datatype State = State(threads: seq<Pc>, slots: seq<Slot>)

  // What an idle thread starts next; `Go` is every other step, `near` what a distance
  // test finds.
  datatype Choice =
    | StartAlloc | StartLogin(c: nat) | StartMove | StartDisconnect(c: nat) | StartNpc(targets: seq<nat>)
    | Go(near: bool)

  function At(s: State, t: nat, pc: Pc): State
    requires t < |s.threads|
  {
    s.(threads := s.threads[t := pc])
  }

  function LockSession(s: State, t: nat, i: nat, pc: Pc): Option<State>
    requires t < |s.threads| && i < |s.slots|
  {
    if s.slots[i].sl.Some? then None
    else Some(At(s.(slots := s.slots[i := s.slots[i].(sl := Some(t))]), t, pc))
  }

  function UnlockSession(s: State, t: nat, i: nat, pc: Pc): Option<State>
    requires t < |s.threads| && i < |s.slots|
  {
    Some(At(s.(slots := s.slots[i := s.slots[i].(sl := None)]), t, pc))
  }

  function LockView(s: State, t: nat, i: nat, pc: Pc): Option<State>
    requires t < |s.threads| && i < |s.slots|
  {
    if s.slots[i].vl.Some? then None
    else Some(At(s.(slots := s.slots[i := s.slots[i].(vl := Some(t))]), t, pc))
  }

  function UnlockView(s: State, t: nat, i: nat, pc: Pc): Option<State>
    requires t < |s.threads| && i < |s.slots|
  {
    Some(At(s.(slots := s.slots[i := s.slots[i].(vl := None)]), t, pc))
  }

  function SetStatus(s: State, t: nat, i: nat, status: Status, change: Change, pc: Pc): Option<State>
    requires t < |s.threads| && i < |s.slots|
  {
    var slot := s.slots[i];
    Some(At(s.(slots := s.slots[i := slot.(status := status, log := slot.log + [change])]), t, pc))
  }

  // Arguments stay inside the tables.
  predicate PcFormed(pc: Pc) {
    match pc
    case Idle => true
    case AllocWant(seen) => |seen| < MAX_USER && Free !in seen
    case AllocTest(seen) => |seen| < MAX_USER && Free !in seen
    case AllocTake(seen) => |seen| < MAX_USER && Free !in seen
    case AllocGive(seen) => |seen| < MAX_USER && Free !in seen
    case AllocPass(seen) => 0 < |seen| <= MAX_USER && Free !in seen
    case AllocDone(result, seen) =>
      Free !in seen && (if result == -1 then |seen| == MAX_USER else |seen| == result < MAX_USER)
    case LoginWant(c) => c < MAX_USER
    case LoginTest(c) => c < MAX_USER
    case LoginLeave(c, _) => c < MAX_USER
    case LoginEnter(c) => c < MAX_USER
    case LoginUnlock(c) => c < MAX_USER
    case TellWant(c, i) => c < MAX_USER && i <= MAX_USER
    case TellTest(c, i) => c < MAX_USER && i < MAX_USER
    case TellWantView(c, i) => c < MAX_USER && i < MAX_USER
    case TellUnlockView(c, i) => c < MAX_USER && i < MAX_USER
    case TellUnlock(c, i) => c < MAX_USER && i < MAX_USER
    case ShowWant(c, i) => c < MAX_USER && i <= ALL
    case ShowTest(c, i) => c < MAX_USER && i < ALL
    case ShowWantView(c, i) => c < MAX_USER && i < ALL
    case ShowUnlockView(c, i) => c < MAX_USER && i < ALL
    case ShowUnlock(c, i) => c < MAX_USER && i < ALL
    case MoveWant(i) => i <= MAX_USER
    case MoveUnlock(i) => i < MAX_USER
    case DropWant(c) => c < MAX_USER
    case DropTest(c) => c < MAX_USER
    case DropLeave(c) => c < MAX_USER
    case DropFree(c) => c < MAX_USER
    case DropUnlock(c) => c < MAX_USER
    case TidyWant(c, i) => c < MAX_USER && i <= ALL
    case TidyUnlock(c, i) => c < MAX_USER && i < ALL
    case NpcWant(targets) => forall p <- targets :: p < MAX_USER
    case NpcUnlock(targets) => targets != [] && forall p <- targets :: p < MAX_USER
  }

  predicate Possible(s: State, t: nat, choice: Choice) {
    && |s.slots| == ALL && t < |s.threads| && PcFormed(s.threads[t])
    && match choice
       case StartLogin(c) => c < MAX_USER
       case StartDisconnect(c) => c < MAX_USER
       case StartNpc(targets) => forall p <- targets :: p < MAX_USER
       case _ => true
  }

  // The step of one thread leaves the tables as long as they are, and the others where
  // they stand.
  predicate Moves(s: State, s': State, t: nat)
    requires t < |s.threads|
  {
    |s'.slots| == |s.slots| && |s'.threads| == |s.threads| && s'.threads == s.threads[t := s'.threads[t]]
  }

  // The operation a thread is in.
  predicate InAlloc(pc: Pc) {
    pc.AllocWant? || pc.AllocTest? || pc.AllocTake? || pc.AllocGive? || pc.AllocPass? || pc.AllocDone?
  }

  predicate InLogin(pc: Pc) {
    pc.LoginWant? || pc.LoginTest? || pc.LoginLeave? || pc.LoginEnter? || pc.LoginUnlock?
  }

  predicate InTell(pc: Pc) {
    pc.TellWant? || pc.TellTest? || pc.TellWantView? || pc.TellUnlockView? || pc.TellUnlock?
  }

  predicate InShow(pc: Pc) {
    pc.ShowWant? || pc.ShowTest? || pc.ShowWantView? || pc.ShowUnlockView? || pc.ShowUnlock?
  }

  predicate InDrop(pc: Pc) {
    || pc.DropWant? || pc.DropTest? || pc.DropLeave? || pc.DropFree?
    || pc.DropUnlock? || pc.TidyWant? || pc.TidyUnlock?
  }

  predicate InRound(pc: Pc) {
    pc.MoveWant? || pc.MoveUnlock? || pc.NpcWant? || pc.NpcUnlock?
  }

  // get_new_client_id
  function ProceedAlloc(s: State, t: nat): (next: Option<State>)
    requires |s.slots| == ALL && t < |s.threads| && PcFormed(s.threads[t])
    ensures next.Some? ==> Moves(s, next.value, t)
  {
    match s.threads[t]
    case AllocWant(seen) => LockSession(s, t, |seen|, AllocTest(seen))
    case AllocTest(seen) =>
      var status := s.slots[|seen|].status;
      Some(At(s, t, if status == Free then AllocTake(seen) else AllocPass(seen + [status])))
    case AllocTake(seen) => SetStatus(s, t, |seen|, Accepted, Taken(t), AllocGive(seen))
    case AllocGive(seen) => UnlockSession(s, t, |seen|, AllocDone(|seen|, seen))
    case AllocPass(seen) =>
      UnlockSession(s, t, |seen| - 1, if |seen| < MAX_USER then AllocWant(seen) else AllocDone(-1, seen))
    case AllocDone(_, _) => Some(At(s, t, Idle))
    case _ => None
  }

  // CS_LOGIN, up to the unlock of the newcomer's session
  function ProceedLogin(s: State, t: nat): (next: Option<State>)
    requires |s.slots| == ALL && t < |s.threads| && PcFormed(s.threads[t])
    ensures next.Some? ==> Moves(s, next.value, t)
  {
    match s.threads[t]
    case LoginWant(c) => LockSession(s, t, c, LoginTest(c))
    case LoginTest(c) =>
      Some(At(s, t, match s.slots[c].status
                    case Free => LoginLeave(c, false)
                    case InGame => LoginLeave(c, true)
                    case Accepted => LoginEnter(c)))
    case LoginLeave(c, again) => UnlockSession(s, t, c, if again then DropWant(c) else Idle)
    case LoginEnter(c) => SetStatus(s, t, c, InGame, Entered, LoginUnlock(c))
    case LoginUnlock(c) => UnlockSession(s, t, c, TellWant(c, 0))
    case _ => None
  }

  // CS_LOGIN: the users in range hear of the newcomer
  function ProceedTell(s: State, t: nat, near: bool): (next: Option<State>)
    requires |s.slots| == ALL && t < |s.threads| && PcFormed(s.threads[t])
    ensures next.Some? ==> Moves(s, next.value, t)
  {
    match s.threads[t]
    case TellWant(c, i) =>
      if i == MAX_USER then Some(At(s, t, ShowWant(c, 0)))
      else if i == c then Some(At(s, t, TellWant(c, i + 1)))
      else LockSession(s, t, i, TellTest(c, i))
    case TellTest(c, i) =>
      Some(At(s, t, if s.slots[i].status == InGame && near then TellWantView(c, i) else TellUnlock(c, i)))
    case TellWantView(c, i) => LockView(s, t, i, TellUnlockView(c, i))
    case TellUnlockView(c, i) => UnlockView(s, t, i, TellUnlock(c, i))
    case TellUnlock(c, i) => UnlockSession(s, t, i, TellWant(c, i + 1))
    case _ => None
  }

  // CS_LOGIN: the newcomer is shown who is in range
  function ProceedShow(s: State, t: nat, near: bool): (next: Option<State>)
    requires |s.slots| == ALL && t < |s.threads| && PcFormed(s.threads[t])
    ensures next.Some? ==> Moves(s, next.value, t)
  {
    match s.threads[t]
    case ShowWant(c, i) =>
      if i == ALL then Some(At(s, t, Idle))
      else if i == c then Some(At(s, t, ShowWant(c, i + 1)))
      else LockSession(s, t, i, ShowTest(c, i))
    case ShowTest(c, i) =>
      Some(At(s, t, if s.slots[i].status == InGame && near then ShowWantView(c, i) else ShowUnlock(c, i)))
    case ShowWantView(c, i) => LockView(s, t, c, ShowUnlockView(c, i))
    case ShowUnlockView(c, i) => UnlockView(s, t, c, ShowUnlock(c, i))
    case ShowUnlock(c, i) => UnlockSession(s, t, i, ShowWant(c, i + 1))
    case _ => None
  }

  // disconnect
  function ProceedDrop(s: State, t: nat): (next: Option<State>)
    requires |s.slots| == ALL && t < |s.threads| && PcFormed(s.threads[t])
    ensures next.Some? ==> Moves(s, next.value, t)
  {
    match s.threads[t]
    case DropWant(c) => LockSession(s, t, c, DropTest(c))
    case DropTest(c) => Some(At(s, t, if s.slots[c].status == Free then DropLeave(c) else DropFree(c)))
    case DropLeave(c) => UnlockSession(s, t, c, Idle)
    case DropFree(c) => SetStatus(s, t, c, Free, Freed, DropUnlock(c))
    case DropUnlock(c) => UnlockSession(s, t, c, TidyWant(c, 0))
    case TidyWant(c, i) =>
      if i == ALL then Some(At(s, t, Idle))
      else if i == c then Some(At(s, t, TidyWant(c, i + 1)))
      else LockSession(s, t, i, TidyUnlock(c, i))
    case TidyUnlock(c, i) => UnlockSession(s, t, i, TidyWant(c, i + 1))
    case _ => None
  }

  // CS_MOVE, and move_npc for the players whose list it edits, in whatever order
  function ProceedRound(s: State, t: nat): (next: Option<State>)
    requires |s.slots| == ALL && t < |s.threads| && PcFormed(s.threads[t])
    ensures next.Some? ==> Moves(s, next.value, t)
  {
    match s.threads[t]
    case MoveWant(i) =>
      if i == MAX_USER then Some(At(s, t, Idle)) else LockSession(s, t, i, MoveUnlock(i))
    case MoveUnlock(i) => UnlockSession(s, t, i, MoveWant(i + 1))
    case NpcWant(targets) =>
      if targets == [] then Some(At(s, t, Idle))
      else assert targets[0] in targets; LockView(s, t, targets[0], NpcUnlock(targets))
    case NpcUnlock(targets) => assert targets[0] in targets; UnlockView(s, t, targets[0], NpcWant(targets[1..]))
    case _ => None
  }

  function Proceed(s: State, t: nat, near: bool): (next: Option<State>)
    requires |s.slots| == ALL && t < |s.threads| && PcFormed(s.threads[t])
    ensures next.Some? ==> Moves(s, next.value, t)
  {
    var pc := s.threads[t];
    if InAlloc(pc) then ProceedAlloc(s, t)
    else if InLogin(pc) then ProceedLogin(s, t)
    else if InTell(pc) then ProceedTell(s, t, near)
    else if InShow(pc) then ProceedShow(s, t, near)
    else if InDrop(pc) then ProceedDrop(s, t)
    else ProceedRound(s, t)
  }

  // One step of thread t: None while the lock it wants is taken, or if it has nothing to
  // do with the choice.
  function Step(s: State, t: nat, choice: Choice): (next: Option<State>)
    requires Possible(s, t, choice)
    ensures next.Some? ==> |next.value.slots| == ALL && |next.value.threads| == |s.threads|
  {
    var pc := s.threads[t];
    if pc.Idle? then
      match choice
      case StartAlloc => Some(At(s, t, AllocWant([])))
      case StartLogin(c) => Some(At(s, t, LoginWant(c)))
      case StartMove => Some(At(s, t, MoveWant(0)))
      case StartDisconnect(c) => Some(At(s, t, DropWant(c)))
      case StartNpc(targets) => Some(At(s, t, NpcWant(targets)))
      case Go(_) => None
    else if !choice.Go? then None
    else Proceed(s, t, choice.near)
  }

  // ------------------------------------------------------------------ what is held

  function HoldsSession(pc: Pc): Option<nat> {
    match pc
    case AllocTest(seen) => Some(|seen|)
    case AllocTake(seen) => Some(|seen|)
    case AllocGive(seen) => Some(|seen|)
    case AllocPass(seen) => if |seen| > 0 then Some(|seen| - 1) else None
    case LoginTest(c) => Some(c)
    case LoginLeave(c, _) => Some(c)
    case LoginEnter(c) => Some(c)
    case LoginUnlock(c) => Some(c)
    case TellTest(_, i) => Some(i)
    case TellWantView(_, i) => Some(i)
    case TellUnlockView(_, i) => Some(i)
    case TellUnlock(_, i) => Some(i)
    case ShowTest(_, i) => Some(i)
    case ShowWantView(_, i) => Some(i)
    case ShowUnlockView(_, i) => Some(i)
    case ShowUnlock(_, i) => Some(i)
    case MoveUnlock(i) => Some(i)
    case DropTest(c) => Some(c)
    case DropLeave(c) => Some(c)
    case DropFree(c) => Some(c)
    case DropUnlock(c) => Some(c)
    case TidyUnlock(_, i) => Some(i)
    case _ => None
  }

  function HoldsView(pc: Pc): Option<nat> {
    match pc
    case TellUnlockView(_, i) => Some(i)
    case ShowUnlockView(c, _) => Some(c)
    case NpcUnlock(targets) => if targets == [] then None else Some(targets[0])
    case _ => None
  }

  // The status a log of changes leads to, or None if some change was out of order.
  function LogStatus(log: seq<Change>): Option<Status>
    decreases |log|
  {
    if log == [] then Some(Free)
    else
      match (LogStatus(log[..|log| - 1]), log[|log| - 1])
      case (Some(Free), Taken(_)) => Some(Accepted)
      case (Some(Accepted), Entered) => Some(InGame)
      case (Some(Accepted), Freed) => Some(Free)
      case (Some(InGame), Freed) => Some(Free)
      case _ => None
  }

  // What a thread has just found out under a session lock still holds.
  predicate Warranted(s: State, pc: Pc)
    requires |s.slots| == ALL && PcFormed(pc)
  {
    match pc
    case AllocTake(seen) => s.slots[|seen|].status == Free
    case LoginEnter(c) => s.slots[c].status == Accepted
    case DropFree(c) => s.slots[c].status != Free
    case _ => true
  }

  ghost predicate SlotInv(s: State, i: nat)
    requires i < |s.slots|
  {
    && (forall t: nat :: s.slots[i].sl == Some(t) <==> t < |s.threads| && HoldsSession(s.threads[t]) == Some(i))
    && (forall t: nat :: s.slots[i].vl == Some(t) <==> t < |s.threads| && HoldsView(s.threads[t]) == Some(i))
    && LogStatus(s.slots[i].log) == Some(s.slots[i].status)
  }

  ghost predicate Inv(s: State) {
    && |s.slots| == ALL
    && (forall t: nat :: t < |s.threads| ==> PcFormed(s.threads[t]) && Warranted(s, s.threads[t]))
    && (forall i: nat :: i < ALL ==> SlotInv(s, i))
  }

  function Start(threads: nat): State {
    State(seq(threads, _ => Idle), seq(ALL, _ => Slot(Free, None, None, [])))
  }

  lemma StartInv(threads: nat)
    ensures Inv(Start(threads))
  {
  }
}
