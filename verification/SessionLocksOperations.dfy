/** Whole operations: from the turn that begins one to the state in which its thread is idle
    again, whatever the other threads do in between. */
module SessionLocksOperations {
  import opened SessionLocks
  import opened SessionLocksProofs
  import opened SessionLocksRuns
  import opened SessionLocksResults

  // Thread t begins an operation with turn a and is idle again in state e, not before.
  ghost predicate Operation(turns: seq<Turn>, ss: seq<State>, a: nat, e: nat, t: nat, choice: Choice) {
    && a < e < |ss| == |turns| + 1 && turns[a] == Turn(t, choice) && !choice.Go?
    && (forall k: nat :: a <= k <= e ==> t < |ss[k].threads|)
    && ss[a].threads[t].Idle? && ss[e].threads[t].Idle?
    && (forall k: nat :: a < k < e ==> !ss[k].threads[t].Idle?)
  }

  /** An idle thread can always begin, and is busy then. */
  lemma IdleCanBegin(s: State, t: nat, choice: Choice)
    requires Inv(s) && t < |s.threads| && s.threads[t].Idle? && !choice.Go?
    requires match choice
             case StartLogin(c) => c < MAX_USER
             case StartDisconnect(c) => c < MAX_USER
             case StartNpc(targets) => forall p <- targets :: p < MAX_USER
             case _ => true
    ensures Possible(s, t, choice) && Step(s, t, choice).Some? && Busy(Step(s, t, choice).value, t)
  {
  }

  // ------------------------------------------------- what an operation leaves behind

  // t has had slot i's session lock, or view lock, at some moment between the two.
  predicate Held(ss: seq<State>, lo: nat, hi: nat, t: nat, i: nat) {
    exists k: nat :: lo < k < hi && k < |ss| && Has(ss[k], t, i)
  }

  predicate HeldView(ss: seq<State>, lo: nat, hi: nat, t: nat, i: nat) {
    exists k: nat :: lo < k < hi && k < |ss| && HasView(ss[k], t, i)
  }

  // What a login's test of a slot comes to: in game, and the distance test finds it near.
  predicate Meets(turns: seq<Turn>, ss: seq<State>, q: nat, i: nat) {
    q < |turns| && q < |ss| && i < |ss[q].slots| && ss[q].slots[i].status == InGame && turns[q].choice == Go(true)
  }

  // Three turns of t, one after the other: it locks slot i, looks at it, and then has v's
  // view lock as well exactly if the two meet.
  predicate ToldAt(turns: seq<Turn>, ss: seq<State>, p: nat, q: nat, r: nat, t: nat, i: nat, v: nat) {
    && Looks(turns, ss, p, q, t, i) && Next(turns, q, r, t) && r + 1 < |ss| && Has(ss[r], t, i)
    && (Has(ss[r + 1], t, i) && HasView(ss[r + 1], t, v) <==> Meets(turns, ss, q, i))
  }

  ghost predicate Told(turns: seq<Turn>, ss: seq<State>, lo: nat, hi: nat, t: nat, i: nat, v: nat) {
    exists p: nat, q: nat, r: nat :: lo < p && r < hi && ToldAt(turns, ss, p, q, r, t, i, v)
  }

  // A loop of a login has been round for every slot below n but c's own; the view lock is
  // c's own in the second loop, the other slot's in the first.
  ghost predicate AllTold(turns: seq<Turn>, ss: seq<State>, lo: nat, hi: nat, t: nat, c: nat, n: nat, own: bool) {
    forall j: nat :: j < n && j != c ==> ToldOf(turns, ss, lo, hi, t, j, c, own)
  }

  ghost predicate ToldOf(turns: seq<Turn>, ss: seq<State>, lo: nat, hi: nat, t: nat, j: nat, c: nat, own: bool) {
    Told(turns, ss, lo, hi, t, j, if own then c else j)
  }

  // Turns p, q, r after a: t locks slot c, finds it ACCEPTED and sets it INGAME.
  predicate Enters(turns: seq<Turn>, ss: seq<State>, a: nat, p: nat, q: nat, r: nat, t: nat, c: nat) {
    && Next(turns, a, p, t) && Looks(turns, ss, p, q, t, c) && ss[q].slots[c].status == Accepted
    && Next(turns, q, r, t) && Sets(turns, ss, r, t, c, Accepted, InGame)
  }

  // Turns p, q, r after a: t locks slot c, finds it taken and sets it FREE.
  predicate Leaves(turns: seq<Turn>, ss: seq<State>, a: nat, p: nat, q: nat, r: nat, t: nat, c: nat) {
    && Next(turns, a, p, t) && Looks(turns, ss, p, q, t, c) && ss[q].slots[c].status != Free
    && Next(turns, q, r, t)
    && (Sets(turns, ss, r, t, c, Accepted, Free) || Sets(turns, ss, r, t, c, InGame, Free))
  }

  // Turns p and q after a: t locks slot c and finds this status.
  predicate Finds(turns: seq<Turn>, ss: seq<State>, a: nat, p: nat, q: nat, t: nat, c: nat, status: Status) {
    Next(turns, a, p, t) && Looks(turns, ss, p, q, t, c) && ss[q].slots[c].status == status
  }

  // ------------------------------------------------- disconnect

  ghost predicate AllHeld(ss: seq<State>, lo: nat, hi: nat, t: nat, c: nat, n: nat) {
    forall j: nat :: j < n && j != c ==> Held(ss, lo, hi, t, j)
  }

  /** What a disconnect of c begun by turn a has done by state e: found the slot free and
      changed nothing, or set it free under its lock and then held every other session's. */
  ghost predicate Disconnected(turns: seq<Turn>, ss: seq<State>, a: nat, e: nat, t: nat, c: nat)
    requires e <= |turns| < |ss|
  {
    || (exists p: nat, q: nat :: q < e && Finds(turns, ss, a, p, q, t, c, Free) && SetsNothing(turns, ss, a, e, t))
    || (exists p: nat, q: nat, r: nat :: r < e && Leaves(turns, ss, a, p, q, r, t, c) && AllHeld(ss, r, e, t, c, ALL))
  }

  // The turns of an operation worth remembering.
  datatype Memo = Memo(p: nat, q: nat, r: nat)

  ghost predicate DropTrail(turns: seq<Turn>, ss: seq<State>, a: nat, m: nat, t: nat, c: nat, w: Memo)
    requires m <= |turns| < |ss| && t < |ss[m].threads|
  {
    match ss[m].threads[t]
    case DropWant(d) => d == c && LastOwn(turns, a, m, t) && SetsNothing(turns, ss, a, m, t)
    case DropTest(d) =>
      && d == c && Next(turns, a, w.p, t) && LastOwn(turns, w.p, m, t) && Locks(turns, ss, w.p, t, c)
      && SetsNothing(turns, ss, a, m, t)
    case DropLeave(d) =>
      && d == c && Finds(turns, ss, a, w.p, w.q, t, c, Free) && LastOwn(turns, w.q, m, t)
      && SetsNothing(turns, ss, a, m, t)
    case DropFree(d) =>
      && d == c && Next(turns, a, w.p, t) && Looks(turns, ss, w.p, w.q, t, c) && LastOwn(turns, w.q, m, t)
      && ss[w.q].slots[c].status != Free
    case DropUnlock(d) => d == c && w.r < m && Leaves(turns, ss, a, w.p, w.q, w.r, t, c)
    case TidyWant(d, i) =>
      d == c && w.r < m && Leaves(turns, ss, a, w.p, w.q, w.r, t, c) && AllHeld(ss, w.r, m, t, c, i)
    case TidyUnlock(d, i) =>
      && d == c && i != c && w.r < m && Leaves(turns, ss, a, w.p, w.q, w.r, t, c) && AllHeld(ss, w.r, m, t, c, i)
    case Idle => Disconnected(turns, ss, a, m, t, c)
    case _ => false
  }

  lemma HeldLater(ss: seq<State>, lo: nat, hi: nat, hi': nat, t: nat, c: nat, n: nat)
    requires AllHeld(ss, lo, hi, t, c, n) && hi <= hi'
    ensures AllHeld(ss, lo, hi', t, c, n)
  {
    forall j: nat | j < n && j != c ensures Held(ss, lo, hi', t, j) {
      assert Held(ss, lo, hi, t, j);
    }
  }

  lemma OneMoreHeld(ss: seq<State>, lo: nat, m: nat, t: nat, c: nat, i: nat)
    requires AllHeld(ss, lo, m, t, c, i) && (i == c || (lo < m < |ss| && Has(ss[m], t, i)))
    ensures AllHeld(ss, lo, m + 1, t, c, i + 1)
  {
    HeldLater(ss, lo, m, m + 1, t, c, i);
  }

  // t's locks in state s are those its place in the program says.
  ghost predicate LocksSeen(s: State, t: nat)
    requires t < |s.threads|
  {
    forall i: nat :: i < ALL ==>
      && (Has(s, t, i) <==> HoldsSession(s.threads[t]) == Some(i))
      && (HasView(s, t, i) <==> HoldsView(s.threads[t]) == Some(i))
  }

  // Turn m is another thread's, and leaves t where it is.
  ghost predicate OtherTurn(turns: seq<Turn>, ss: seq<State>, m: nat, t: nat) {
    && m < |turns| && |ss| == |turns| + 1 && turns[m].t != t
    && t < |ss[m].threads| && t < |ss[m + 1].threads| && ss[m + 1].threads[t] == ss[m].threads[t]
  }

  // Turn m is t's own, with what is known of the states around it.
  ghost predicate OwnTurn(turns: seq<Turn>, ss: seq<State>, m: nat, t: nat) {
    && m < |turns| && |ss| == |turns| + 1 && turns[m].t == t && Goes(ss[m], turns[m], ss[m + 1])
    && t < |ss[m].threads| && t < |ss[m + 1].threads| && |ss[m].slots| == |ss[m + 1].slots| == ALL
    && PcFormed(ss[m].threads[t]) && Warranted(ss[m], ss[m].threads[t])
    && LocksSeen(ss[m], t) && LocksSeen(ss[m + 1], t)
  }

  // t is busy from state m on until state e.
  ghost predicate Busily(turns: seq<Turn>, ss: seq<State>, m: nat, e: nat, t: nat) {
    m <= e < |ss| == |turns| + 1 && forall k: nat :: m <= k < e ==> BusyTurn(turns, ss, k, t)
  }

  ghost predicate BusyTurn(turns: seq<Turn>, ss: seq<State>, k: nat, t: nat) {
    (OwnTurn(turns, ss, k, t) || OtherTurn(turns, ss, k, t)) && !ss[k].threads[t].Idle?
  }

  lemma SeenAt(s: State, t: nat)
    requires Inv(s) && t < |s.threads|
    ensures LocksSeen(s, t)
  {
    forall i: nat | i < ALL
      ensures Has(s, t, i) <==> HoldsSession(s.threads[t]) == Some(i)
      ensures HasView(s, t, i) <==> HoldsView(s.threads[t]) == Some(i)
    {
      HasMeans(s, t, i);
    }
  }

  lemma TurnOf(threads: nat, turns: seq<Turn>, ss: seq<State>, m: nat, t: nat)
    requires Trace(threads, turns, ss) && m < |turns| && t < threads
    ensures OwnTurn(turns, ss, m, t) || OtherTurn(turns, ss, m, t)
  {
    assert Inv(ss[m]) && Inv(ss[m + 1]) && Goes(ss[m], turns[m], ss[m + 1]);
    if turns[m].t == t {
      SeenAt(ss[m], t);
      SeenAt(ss[m + 1], t);
    } else {
      OthersTurn(threads, turns, ss, m, t);
    }
  }

  lemma OperationIsBusy(threads: nat, turns: seq<Turn>, ss: seq<State>, a: nat, e: nat, t: nat, choice: Choice)
    requires Trace(threads, turns, ss) && Operation(turns, ss, a, e, t, choice)
    ensures Busily(turns, ss, a + 1, e, t)
  {
    forall k: nat | a + 1 <= k < e ensures BusyTurn(turns, ss, k, t) {
      TurnOf(threads, turns, ss, k, t);
    }
  }

  // Where an operation stands after the turn that begins it.
  lemma Begun(threads: nat, turns: seq<Turn>, ss: seq<State>, a: nat, e: nat, t: nat, choice: Choice)
    requires Trace(threads, turns, ss) && Operation(turns, ss, a, e, t, choice)
    ensures LastOwn(turns, a, a + 1, t) && SetsNothing(turns, ss, a, a + 1, t)
    ensures Possible(ss[a], t, choice)
    ensures
      ss[a + 1].threads[t] ==
      match choice
      case StartAlloc => AllocWant([])
      case StartLogin(c) => LoginWant(c)
      case StartMove => MoveWant(0)
      case StartDisconnect(c) => DropWant(c)
      case StartNpc(targets) => NpcWant(targets)
      case Go(_) => Idle
  {
    assert Goes(ss[a], turns[a], ss[a + 1]);
  }

  lemma DropOthers(turns: seq<Turn>, ss: seq<State>, a: nat, m: nat, t: nat, c: nat, w: Memo)
    requires OtherTurn(turns, ss, m, t)
    requires DropTrail(turns, ss, a, m, t, c, w) && !ss[m].threads[t].Idle?
    ensures DropTrail(turns, ss, a, m + 1, t, c, w)
  {
    assert forall p: nat :: LastOwn(turns, p, m, t) ==> LastOwn(turns, p, m + 1, t);
    match ss[m].threads[t]
    case TidyWant(d, i) => HeldLater(ss, w.r, m, m + 1, t, c, i);
    case TidyUnlock(d, i) => HeldLater(ss, w.r, m, m + 1, t, c, i);
    case _ =>
  }

  // The steps of a disconnect, one by one.
  lemma DropWantOwn(turns: seq<Turn>, ss: seq<State>, a: nat, m: nat, t: nat, c: nat, w: Memo)
    requires OwnTurn(turns, ss, m, t) && c < ALL && ss[m].threads[t].DropWant?
    requires DropTrail(turns, ss, a, m, t, c, w)
    ensures DropTrail(turns, ss, a, m + 1, t, c, w.(p := m))
  {
    assert LastOwn(turns, m, m + 1, t);
    assert ss[m + 1].threads[t] == DropTest(c) && SameStatuses(ss[m], ss[m + 1]);
  }

  lemma DropTests(turns: seq<Turn>, ss: seq<State>, m: nat, t: nat, c: nat)
    requires OwnTurn(turns, ss, m, t) && c < ALL && ss[m].threads[t] == DropTest(c)
    ensures ss[m + 1].threads[t] == (if ss[m].slots[c].status == Free then DropLeave(c) else DropFree(c))
    ensures SameStatuses(ss[m], ss[m + 1])
  {
  }

  lemma DropTestOwn(turns: seq<Turn>, ss: seq<State>, a: nat, m: nat, t: nat, c: nat, w: Memo)
    requires OwnTurn(turns, ss, m, t) && c < ALL && ss[m].threads[t].DropTest?
    requires DropTrail(turns, ss, a, m, t, c, w)
    ensures DropTrail(turns, ss, a, m + 1, t, c, w.(q := m))
  {
    assert LastOwn(turns, m, m + 1, t);
    DropTests(turns, ss, m, t, c);
    assert Looks(turns, ss, w.p, m, t, c);
  }

  lemma DropLeaveOwn(turns: seq<Turn>, ss: seq<State>, a: nat, m: nat, t: nat, c: nat, w: Memo)
    requires OwnTurn(turns, ss, m, t) && c < ALL && ss[m].threads[t].DropLeave?
    requires DropTrail(turns, ss, a, m, t, c, w)
    ensures DropTrail(turns, ss, a, m + 1, t, c, w)
  {
    assert ss[m + 1].threads[t] == Idle && SameStatuses(ss[m], ss[m + 1]);
    assert Finds(turns, ss, a, w.p, w.q, t, c, Free) && SetsNothing(turns, ss, a, m + 1, t);
  }

  lemma DropFreeOwn(turns: seq<Turn>, ss: seq<State>, a: nat, m: nat, t: nat, c: nat, w: Memo)
    requires OwnTurn(turns, ss, m, t) && c < ALL && ss[m].threads[t].DropFree?
    requires DropTrail(turns, ss, a, m, t, c, w)
    ensures DropTrail(turns, ss, a, m + 1, t, c, w.(r := m))
  {
    assert LastOwn(turns, m, m + 1, t);
    assert ss[m + 1].threads[t] == DropUnlock(c) && ss[m + 1].slots[c].status == Free;
    assert Leaves(turns, ss, a, w.p, w.q, m, t, c);
  }

  lemma DropUnlockOwn(turns: seq<Turn>, ss: seq<State>, a: nat, m: nat, t: nat, c: nat, w: Memo)
    requires OwnTurn(turns, ss, m, t) && c < ALL && ss[m].threads[t].DropUnlock?
    requires DropTrail(turns, ss, a, m, t, c, w)
    ensures DropTrail(turns, ss, a, m + 1, t, c, w)
  {
    assert ss[m + 1].threads[t] == TidyWant(c, 0);
  }

  lemma TidyOwn(turns: seq<Turn>, ss: seq<State>, a: nat, m: nat, t: nat, c: nat, w: Memo)
    requires OwnTurn(turns, ss, m, t) && c < ALL
    requires DropTrail(turns, ss, a, m, t, c, w)
    requires ss[m].threads[t].TidyWant? || ss[m].threads[t].TidyUnlock?
    ensures DropTrail(turns, ss, a, m + 1, t, c, w)
  {
    var i := ss[m].threads[t].i;
    TidyGoes(turns, ss, m, t);
    HeldLater(ss, w.r, m, m + 1, t, c, i);
    if ss[m].threads[t].TidyUnlock? || i == c {
      OneMoreHeld(ss, w.r, m, t, c, i);
    }
  }

  lemma TidyGoes(turns: seq<Turn>, ss: seq<State>, m: nat, t: nat)
    requires OwnTurn(turns, ss, m, t) && (ss[m].threads[t].TidyWant? || ss[m].threads[t].TidyUnlock?)
    ensures
      var pc := ss[m].threads[t];
      ss[m + 1].threads[t] ==
      if pc.TidyUnlock? then TidyWant(pc.c, pc.i + 1)
      else if pc.i == ALL then Idle
      else if pc.i == pc.c then TidyWant(pc.c, pc.i + 1) else TidyUnlock(pc.c, pc.i)
  {
  }

  lemma DropNext(turns: seq<Turn>, ss: seq<State>, a: nat, m: nat, t: nat, c: nat, w: Memo) returns (w': Memo)
    requires BusyTurn(turns, ss, m, t) && c < ALL && DropTrail(turns, ss, a, m, t, c, w)
    ensures DropTrail(turns, ss, a, m + 1, t, c, w')
  {
    w' := w;
    var pc := ss[m].threads[t];
    if turns[m].t != t {
      DropOthers(turns, ss, a, m, t, c, w);
    } else if pc.DropWant? {
      DropWantOwn(turns, ss, a, m, t, c, w);
      w' := w.(p := m);
    } else if pc.DropTest? {
      DropTestOwn(turns, ss, a, m, t, c, w);
      w' := w.(q := m);
    } else if pc.DropLeave? {
      DropLeaveOwn(turns, ss, a, m, t, c, w);
    } else if pc.DropFree? {
      DropFreeOwn(turns, ss, a, m, t, c, w);
      w' := w.(r := m);
    } else if pc.DropUnlock? {
      DropUnlockOwn(turns, ss, a, m, t, c, w);
    } else {
      TidyOwn(turns, ss, a, m, t, c, w);
    }
  }

  lemma {:induction false} DropToEnd(turns: seq<Turn>, ss: seq<State>, a: nat, m: nat, e: nat, t: nat, c: nat, w: Memo)
    returns (w': Memo)
    requires Busily(turns, ss, m, e, t) && c < ALL && t < |ss[m].threads| && t < |ss[e].threads|
    requires DropTrail(turns, ss, a, m, t, c, w)
    ensures DropTrail(turns, ss, a, e, t, c, w')
    decreases e - m
  {
    w' := w;
    if m < e {
      assert BusyTurn(turns, ss, m, t);
      w' := DropNext(turns, ss, a, m, t, c, w);
      w' := DropToEnd(turns, ss, a, m + 1, e, t, c, w');
    }
  }

  /** Every disconnect. */
  lemma DisconnectResult(threads: nat, turns: seq<Turn>, ss: seq<State>, a: nat, e: nat, t: nat, c: nat)
    requires Interleaving(threads, turns, ss) && Operation(turns, ss, a, e, t, StartDisconnect(c))
    ensures Disconnected(turns, ss, a, e, t, c)
  {
    TraceUpTo(threads, turns, ss, |turns|);
    Begun(threads, turns, ss, a, e, t, StartDisconnect(c));
    OperationIsBusy(threads, turns, ss, a, e, t, StartDisconnect(c));
    var w := DropToEnd(turns, ss, a, a + 1, e, t, c, Memo(0, 0, 0));
  }

  // ------------------------------------------------- CS_MOVE

  // No slot is left out: no slot has the identifier ALL.
  ghost predicate MoveTrail(ss: seq<State>, a: nat, m: nat, t: nat) {
    && m < |ss| && t < |ss[m].threads|
    && match ss[m].threads[t]
       case MoveWant(i) => a < m && AllHeld(ss, a, m, t, ALL, i)
       case MoveUnlock(i) => a < m && AllHeld(ss, a, m, t, ALL, i)
       case Idle => AllHeld(ss, a, m, t, ALL, MAX_USER)
       case _ => false
  }

  lemma MoveNext(turns: seq<Turn>, ss: seq<State>, a: nat, m: nat, t: nat)
    requires BusyTurn(turns, ss, m, t) && MoveTrail(ss, a, m, t)
    ensures MoveTrail(ss, a, m + 1, t)
  {
    var pc := ss[m].threads[t];
    HeldLater(ss, a, m, m + 1, t, ALL, pc.i);
    if turns[m].t == t && pc.MoveUnlock? {
      OneMoreHeld(ss, a, m, t, ALL, pc.i);
    }
  }

  lemma {:induction false} MoveToEnd(turns: seq<Turn>, ss: seq<State>, a: nat, m: nat, e: nat, t: nat)
    requires Busily(turns, ss, m, e, t) && MoveTrail(ss, a, m, t)
    ensures MoveTrail(ss, a, e, t)
    decreases e - m
  {
    if m < e {
      assert BusyTurn(turns, ss, m, t);
      MoveNext(turns, ss, a, m, t);
      MoveToEnd(turns, ss, a, m + 1, e, t);
    }
  }

  /** Every CS_MOVE has had every user's session lock when it ends. */
  lemma MoveResult(threads: nat, turns: seq<Turn>, ss: seq<State>, a: nat, e: nat, t: nat, i: nat)
    requires Interleaving(threads, turns, ss) && Operation(turns, ss, a, e, t, StartMove) && i < MAX_USER
    ensures Held(ss, a, e, t, i)
  {
    TraceUpTo(threads, turns, ss, |turns|);
    Begun(threads, turns, ss, a, e, t, StartMove);
    OperationIsBusy(threads, turns, ss, a, e, t, StartMove);
    MoveToEnd(turns, ss, a, a + 1, e, t);
  }

  // ------------------------------------------------- an NPC's step

  ghost predicate ViewsHeld(ss: seq<State>, lo: nat, hi: nat, t: nat, targets: seq<nat>, n: nat) {
    n <= |targets| && forall j: nat :: j < n ==> HeldView(ss, lo, hi, t, targets[j])
  }

  ghost predicate NpcTrail(ss: seq<State>, a: nat, m: nat, t: nat, targets: seq<nat>) {
    && a < m < |ss| && t < |ss[m].threads|
    && match ss[m].threads[t]
       case NpcWant(rest) => Behind(targets, rest) && ViewsHeld(ss, a, m, t, targets, |targets| - |rest|)
       case NpcUnlock(rest) => Behind(targets, rest) && ViewsHeld(ss, a, m, t, targets, |targets| - |rest|)
       case Idle => ViewsHeld(ss, a, m, t, targets, |targets|)
       case _ => false
  }

  predicate Behind(targets: seq<nat>, rest: seq<nat>) {
    |rest| <= |targets| && rest == targets[|targets| - |rest|..]
  }

  lemma ViewsLater(ss: seq<State>, lo: nat, hi: nat, t: nat, targets: seq<nat>, n: nat)
    requires ViewsHeld(ss, lo, hi, t, targets, n)
    ensures ViewsHeld(ss, lo, hi + 1, t, targets, n)
  {
    forall j: nat | j < n ensures HeldView(ss, lo, hi + 1, t, targets[j]) {
      assert HeldView(ss, lo, hi, t, targets[j]);
    }
  }

  lemma NpcNext(turns: seq<Turn>, ss: seq<State>, a: nat, m: nat, t: nat, targets: seq<nat>)
    requires BusyTurn(turns, ss, m, t) && NpcTrail(ss, a, m, t, targets)
    ensures NpcTrail(ss, a, m + 1, t, targets)
  {
    var pc := ss[m].threads[t];
    ViewsLater(ss, a, m, t, targets, |targets| - |pc.targets|);
    if turns[m].t == t {
      NpcGoes(turns, ss, m, t);
      if pc.NpcUnlock? {
        assert pc.targets[0] == targets[|targets| - |pc.targets|];
      }
    }
  }

  lemma NpcGoes(turns: seq<Turn>, ss: seq<State>, m: nat, t: nat)
    requires OwnTurn(turns, ss, m, t) && InRound(ss[m].threads[t])
    requires ss[m].threads[t].NpcWant? || ss[m].threads[t].NpcUnlock?
    ensures
      var pc, pc' := ss[m].threads[t], ss[m + 1].threads[t];
      if pc.NpcWant? then pc' == (if pc.targets == [] then Idle else NpcUnlock(pc.targets))
      else pc.targets != [] && HasView(ss[m], t, pc.targets[0]) && pc' == NpcWant(pc.targets[1..])
  {
    var pc := ss[m].threads[t];
    if pc.targets != [] {
      assert pc.targets[0] in pc.targets;
    }
  }

  lemma {:induction false} NpcToEnd(turns: seq<Turn>, ss: seq<State>, a: nat, m: nat, e: nat, t: nat, targets: seq<nat>)
    requires Busily(turns, ss, m, e, t) && NpcTrail(ss, a, m, t, targets)
    ensures NpcTrail(ss, a, e, t, targets)
    decreases e - m
  {
    if m < e {
      assert BusyTurn(turns, ss, m, t);
      NpcNext(turns, ss, a, m, t, targets);
      NpcToEnd(turns, ss, a, m + 1, e, t, targets);
    }
  }

  /** Every NPC step has had the view lock of each player whose list it edits. */
  lemma NpcResult(threads: nat, turns: seq<Turn>, ss: seq<State>, a: nat, e: nat, t: nat, targets: seq<nat>, p: nat)
    requires Interleaving(threads, turns, ss) && Operation(turns, ss, a, e, t, StartNpc(targets)) && p in targets
    ensures HeldView(ss, a, e, t, p)
  {
    TraceUpTo(threads, turns, ss, |turns|);
    Begun(threads, turns, ss, a, e, t, StartNpc(targets));
    OperationIsBusy(threads, turns, ss, a, e, t, StartNpc(targets));
    assert targets[0..] == targets;
    NpcToEnd(turns, ss, a, a + 1, e, t, targets);
  }

  // ------------------------------------------------- allocation

  ghost predicate Returned(turns: seq<Turn>, ss: seq<State>, a: nat, m: nat, t: nat) {
    exists d: nat, i: int :: a < d < m && Returns(turns, ss, d, t, i)
  }

  ghost predicate AllocBusy(turns: seq<Turn>, ss: seq<State>, a: nat, m: nat, t: nat) {
    && a < m < |ss| && t < |ss[m].threads|
    && (InAlloc(ss[m].threads[t]) || ss[m].threads[t].Idle?)
    && (ss[m].threads[t].AllocDone? || ss[m].threads[t].Idle? ==> Returned(turns, ss, a, m, t))
  }

  lemma AllocNext(turns: seq<Turn>, ss: seq<State>, a: nat, m: nat, t: nat)
    requires BusyTurn(turns, ss, m, t) && AllocBusy(turns, ss, a, m, t)
    ensures AllocBusy(turns, ss, a, m + 1, t)
  {
    var pc, pc' := ss[m].threads[t], ss[m + 1].threads[t];
    if pc'.AllocDone? && !pc.AllocDone? {
      assert Returns(turns, ss, m, t, pc'.result);
    } else if pc.AllocDone? {
      var d: nat, i: int :| a < d < m && Returns(turns, ss, d, t, i);
      assert a < d < m + 1 && Returns(turns, ss, d, t, i);
    }
  }

  lemma {:induction false} AllocToEnd(turns: seq<Turn>, ss: seq<State>, a: nat, m: nat, e: nat, t: nat)
    requires Busily(turns, ss, m, e, t) && AllocBusy(turns, ss, a, m, t)
    ensures AllocBusy(turns, ss, a, e, t)
    decreases e - m
  {
    if m < e {
      assert BusyTurn(turns, ss, m, t);
      AllocNext(turns, ss, a, m, t);
      AllocToEnd(turns, ss, a, m + 1, e, t);
    }
  }

  /** Every allocation returns something before its thread is idle again; what that means is
      said by AllocationTakes and AllocationResult. */
  lemma AllocationReturns(threads: nat, turns: seq<Turn>, ss: seq<State>, a: nat, e: nat, t: nat)
    requires Interleaving(threads, turns, ss) && Operation(turns, ss, a, e, t, StartAlloc)
    ensures Returned(turns, ss, a, e, t)
  {
    TraceUpTo(threads, turns, ss, |turns|);
    Begun(threads, turns, ss, a, e, t, StartAlloc);
    OperationIsBusy(threads, turns, ss, a, e, t, StartAlloc);
    AllocToEnd(turns, ss, a, a + 1, e, t);
  }
}
