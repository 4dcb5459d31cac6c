/** What each operation has done by the time its thread is idle again, under any interleaving:
    which locks it has held, which statuses it has set, and what it has returned. */
module SessionLocksResults {
  import opened SessionLocks
  import opened SessionLocksProofs
  import opened SessionLocksRuns

  // An interleaving with the states it goes through.
  ghost predicate Interleaving(threads: nat, turns: seq<Turn>, ss: seq<State>) {
    && |ss| == |turns| + 1 && ss[0] == Start(threads)
    && forall k: nat :: k < |turns| ==> Goes(ss[k], turns[k], ss[k + 1])
  }

  predicate Goes(s: State, turn: Turn, s': State) {
    Possible(s, turn.t, turn.choice) && Step(s, turn.t, turn.choice) == Some(s')
  }

  // Every run is one.
  lemma {:induction false} StatesOf(s: State, turns: seq<Turn>) returns (ss: seq<State>)
    requires CanRun(s, turns)
    ensures |ss| == |turns| + 1 && ss[0] == s && ss[|turns|] == Run(s, turns)
    ensures forall k: nat :: k < |turns| ==> Goes(ss[k], turns[k], ss[k + 1])
    decreases |turns|
  {
    if turns == [] {
      ss := [s];
    } else {
      var rest := StatesOf(Step(s, turns[0].t, turns[0].choice).value, turns[1..]);
      ss := [s] + rest;
      forall k: nat | k < |turns| ensures Goes(ss[k], turns[k], ss[k + 1]) {
        if k > 0 {
          assert Goes(rest[k - 1], turns[1..][k - 1], rest[k]);
        }
      }
    }
  }

  lemma EveryRunIsOne(threads: nat, turns: seq<Turn>) returns (ss: seq<State>)
    requires CanRun(Start(threads), turns)
    ensures Interleaving(threads, turns, ss) && ss[|turns|] == Run(Start(threads), turns)
  {
    ss := StatesOf(Start(threads), turns);
  }

  // The same with what is known of every state.
  ghost predicate Trace(threads: nat, turns: seq<Turn>, ss: seq<State>) {
    && Interleaving(threads, turns, ss)
    && forall k: nat :: k <= |turns| ==> Inv(ss[k]) && |ss[k].threads| == threads
  }

  lemma {:induction false} TraceUpTo(threads: nat, turns: seq<Turn>, ss: seq<State>, m: nat)
    requires Interleaving(threads, turns, ss) && m <= |turns|
    ensures forall k: nat :: k <= m ==> Inv(ss[k]) && |ss[k].threads| == threads
  {
    StartInv(threads);
    if m != 0 {
      TraceUpTo(threads, turns, ss, m - 1);
      assert Goes(ss[m - 1], turns[m - 1], ss[m]);
      StepKeeps(ss[m - 1], turns[m - 1].t, turns[m - 1].choice);
    }
  }

  // ------------------------------------------------- what can be seen of a thread

  predicate Has(s: State, t: nat, i: nat) {
    i < |s.slots| && s.slots[i].sl == Some(t)
  }

  predicate HasView(s: State, t: nat, i: nat) {
    i < |s.slots| && s.slots[i].vl == Some(t)
  }

  lemma HasMeans(s: State, t: nat, i: nat)
    requires Inv(s) && t < |s.threads| && i < ALL
    ensures Has(s, t, i) <==> HoldsSession(s.threads[t]) == Some(i)
    ensures HasView(s, t, i) <==> HoldsView(s.threads[t]) == Some(i)
  {
    assert SlotInv(s, i);
  }

  // The last turn of t before m is p.
  predicate LastOwn(turns: seq<Turn>, p: nat, m: nat, t: nat) {
    p < m <= |turns| && turns[p].t == t && forall x: nat :: p < x < m ==> turns[x].t != t
  }

  // Turns p and q of t follow each other.
  predicate Next(turns: seq<Turn>, p: nat, q: nat, t: nat) {
    q < |turns| && LastOwn(turns, p, q, t) && turns[q].t == t
  }

  // Turn p of t locks slot i's session.
  predicate Locks(turns: seq<Turn>, ss: seq<State>, p: nat, t: nat, i: nat) {
    && p < |turns| && p + 1 < |ss| && turns[p].t == t
    && !Has(ss[p], t, i) && Has(ss[p + 1], t, i)
  }

  // Turns p and q of t, one after the other: it locks slot i and looks at its status.
  predicate Looks(turns: seq<Turn>, ss: seq<State>, p: nat, q: nat, t: nat, i: nat) {
    Next(turns, p, q, t) && Locks(turns, ss, p, t, i) && q < |ss| && Has(ss[q], t, i)
  }

  // Turn r of t changes slot i's status, and it has the slot's session lock before and after.
  predicate Sets(turns: seq<Turn>, ss: seq<State>, r: nat, t: nat, i: nat, from: Status, to: Status) {
    && r < |turns| && r + 1 < |ss| && turns[r].t == t && Has(ss[r], t, i) && Has(ss[r + 1], t, i)
    && ss[r].slots[i].status == from && ss[r + 1].slots[i].status == to
  }

  predicate SameStatuses(s: State, s': State) {
    |s.slots| == |s'.slots| && forall i: nat :: i < |s.slots| ==> s'.slots[i].status == s.slots[i].status
  }

  // No turn of t from lo on, before hi, changes any status.
  ghost predicate SetsNothing(turns: seq<Turn>, ss: seq<State>, lo: nat, hi: nat, t: nat)
    requires hi <= |turns| < |ss|
  {
    forall k: nat :: lo <= k < hi && turns[k].t == t ==> SameStatuses(ss[k], ss[k + 1])
  }

  // ------------------------------------------------- allocation

  // The three turns with which t takes slot i: lock, look, write.
  predicate Takes(turns: seq<Turn>, ss: seq<State>, p: nat, q: nat, r: nat, t: nat, i: nat) {
    && Looks(turns, ss, p, q, t, i) && ss[q].slots[i].status == Free
    && Next(turns, q, r, t) && Sets(turns, ss, r, t, i, Free, Accepted)
    && ss[r + 1].slots[i].log == ss[r].slots[i].log + [Taken(t)]
  }

  // Turn d of t returns i from an allocation.
  predicate Returns(turns: seq<Turn>, ss: seq<State>, d: nat, t: nat, i: int) {
    && d < |turns| && d + 1 < |ss| && turns[d].t == t && t < |ss[d].threads| && t < |ss[d + 1].threads|
    && !ss[d].threads[t].AllocDone?
    && ss[d + 1].threads[t].AllocDone? && ss[d + 1].threads[t].result == i
  }

  // What an allocation has behind it, by where it stands before turn m.
  ghost predicate AllocTrail(turns: seq<Turn>, ss: seq<State>, m: nat, t: nat)
    requires m < |ss| && t < |ss[m].threads|
  {
    match ss[m].threads[t]
    case AllocTest(seen) =>
      exists p: nat :: LastOwn(turns, p, m, t) && Locks(turns, ss, p, t, |seen|)
    case AllocTake(seen) =>
      exists p: nat, q: nat :: LastOwn(turns, q, m, t) && Looks(turns, ss, p, q, t, |seen|)
        && ss[q].slots[|seen|].status == Free
    case AllocGive(seen) =>
      exists p: nat, q: nat, r: nat :: LastOwn(turns, r, m, t) && Takes(turns, ss, p, q, r, t, |seen|)
    case _ => true
  }

  lemma OthersTurn(threads: nat, turns: seq<Turn>, ss: seq<State>, m: nat, t: nat)
    requires Trace(threads, turns, ss) && m < |turns| && turns[m].t != t && t < threads
    ensures ss[m + 1].threads[t] == ss[m].threads[t]
    ensures forall p: nat :: LastOwn(turns, p, m, t) ==> LastOwn(turns, p, m + 1, t)
  {
    assert Goes(ss[m], turns[m], ss[m + 1]);
  }

  // Turn m is t's own, in an interleaving, and leads it to pc'.
  ghost predicate Comes(turns: seq<Turn>, ss: seq<State>, m: nat, t: nat) {
    && m < |turns| && |ss| == |turns| + 1 && turns[m].t == t && Goes(ss[m], turns[m], ss[m + 1])
    && Inv(ss[m]) && Inv(ss[m + 1]) && t < |ss[m + 1].threads|
  }

  lemma ComesToTest(turns: seq<Turn>, ss: seq<State>, m: nat, t: nat)
    requires Comes(turns, ss, m, t) && ss[m + 1].threads[t].AllocTest?
    ensures AllocTrail(turns, ss, m + 1, t)
  {
    var i := |ss[m + 1].threads[t].seen|;
    OnlyFrom(ss[m], turns[m], t);
    assert PcFormed(ss[m].threads[t]) && LastOwn(turns, m, m + 1, t);
    HasMeans(ss[m], t, i);
    HasMeans(ss[m + 1], t, i);
    assert Locks(turns, ss, m, t, i);
  }

  lemma ComesToTake(turns: seq<Turn>, ss: seq<State>, m: nat, t: nat)
    requires Comes(turns, ss, m, t) && ss[m + 1].threads[t].AllocTake? && AllocTrail(turns, ss, m, t)
    ensures AllocTrail(turns, ss, m + 1, t)
  {
    var i := |ss[m + 1].threads[t].seen|;
    OnlyFrom(ss[m], turns[m], t);
    assert PcFormed(ss[m].threads[t]) && LastOwn(turns, m, m + 1, t);
    HasMeans(ss[m], t, i);
    var p: nat :| LastOwn(turns, p, m, t) && Locks(turns, ss, p, t, i);
    assert Looks(turns, ss, p, m, t, i);
  }

  lemma ComesToGive(turns: seq<Turn>, ss: seq<State>, m: nat, t: nat)
    requires Comes(turns, ss, m, t) && ss[m + 1].threads[t].AllocGive? && AllocTrail(turns, ss, m, t)
    ensures AllocTrail(turns, ss, m + 1, t)
  {
    var i := |ss[m + 1].threads[t].seen|;
    OnlyFrom(ss[m], turns[m], t);
    assert PcFormed(ss[m].threads[t]) && Warranted(ss[m], ss[m].threads[t]) && LastOwn(turns, m, m + 1, t);
    HasMeans(ss[m], t, i);
    HasMeans(ss[m + 1], t, i);
    var p: nat, q: nat :| LastOwn(turns, q, m, t) && Looks(turns, ss, p, q, t, i) && ss[q].slots[i].status == Free;
    assert Takes(turns, ss, p, q, m, t, i);
  }

  lemma OwnAllocTurn(threads: nat, turns: seq<Turn>, ss: seq<State>, m: nat, t: nat)
    requires Trace(threads, turns, ss) && m < |turns| && turns[m].t == t && t < threads
    requires AllocTrail(turns, ss, m, t)
    ensures AllocTrail(turns, ss, m + 1, t)
  {
    assert Comes(turns, ss, m, t) by {
      assert Goes(ss[m], turns[m], ss[m + 1]);
    }
    var pc' := ss[m + 1].threads[t];
    if pc'.AllocTest? {
      ComesToTest(turns, ss, m, t);
    } else if pc'.AllocTake? {
      ComesToTake(turns, ss, m, t);
    } else if pc'.AllocGive? {
      ComesToGive(turns, ss, m, t);
    }
  }

  // The only ways into the steps of an allocation.
  lemma OnlyFrom(s: State, turn: Turn, t: nat)
    requires Inv(s) && turn.t == t && Possible(s, t, turn.choice) && Step(s, t, turn.choice).Some?
    ensures
      var pc, pc' := s.threads[t], Step(s, t, turn.choice).value.threads[t];
      && (pc'.AllocTest? ==> pc == AllocWant(pc'.seen))
      && (pc'.AllocTake? ==> pc == AllocTest(pc'.seen) && s.slots[|pc'.seen|].status == Free)
      && (pc'.AllocGive? ==> pc == AllocTake(pc'.seen))
      && (pc'.AllocDone? ==>
            if pc'.result == -1 then pc.AllocPass? else pc == AllocGive(pc'.seen) && |pc'.seen| == pc'.result)
  {
    var pc := s.threads[t];
    if !pc.Idle? && !InAlloc(pc) {
      OthersStayOut(s, t, turn.choice.near);
    }
  }

  lemma {:induction false} AllocTrailAlways(threads: nat, turns: seq<Turn>, ss: seq<State>, m: nat, t: nat)
    requires Trace(threads, turns, ss) && m <= |turns| && t < threads
    ensures AllocTrail(turns, ss, m, t)
  {
    if m != 0 {
      AllocTrailAlways(threads, turns, ss, m - 1, t);
      if turns[m - 1].t == t {
        OwnAllocTurn(threads, turns, ss, m - 1, t);
      } else {
        OthersTurn(threads, turns, ss, m - 1, t);
      }
    }
  }

  /** An allocation that returns i has, in its three turns before, locked slot i, found it
      free, and set it to ACCEPTED under that lock, leaving its own mark in the slot's log. */
  lemma AllocationTakes(threads: nat, turns: seq<Turn>, ss: seq<State>, d: nat, t: nat, i: nat)
    requires Interleaving(threads, turns, ss) && Returns(turns, ss, d, t, i)
    ensures exists p: nat, q: nat, r: nat :: Takes(turns, ss, p, q, r, t, i) && Next(turns, r, d, t)
  {
    TraceUpTo(threads, turns, ss, |turns|);
    AllocTrailAlways(threads, turns, ss, d, t);
    assert Goes(ss[d], turns[d], ss[d + 1]);
    OnlyFrom(ss[d], turns[d], t);
    var p: nat, q: nat, r: nat :| LastOwn(turns, r, d, t) && Takes(turns, ss, p, q, r, t, i);
    assert Next(turns, r, d, t);
  }

  // ------------------------------------------------- exclusivity

  // Turn k frees slot i: a disconnect that has its session lock.
  predicate Frees(turns: seq<Turn>, ss: seq<State>, k: nat, i: nat) {
    && k < |turns| && k < |ss| && turns[k].t < |ss[k].threads|
    && ss[k].threads[turns[k].t] == DropFree(i)
    && (Sets(turns, ss, k, turns[k].t, i, Accepted, Free) || Sets(turns, ss, k, turns[k].t, i, InGame, Free))
  }

  // Only a disconnect makes a slot free.
  lemma FreedByDisconnect(s: State, t: nat, choice: Choice, i: nat)
    requires Inv(s) && Possible(s, t, choice) && Step(s, t, choice).Some? && i < ALL
    requires s.slots[i].status != Free && Step(s, t, choice).value.slots[i].status == Free
    ensures s.threads[t] == DropFree(i)
  {
    var pc := s.threads[t];
    if !pc.Idle? {
      if InAlloc(pc) {
        AllocUnderLock(s, t, i);
      } else if InLogin(pc) {
        LoginUnderLock(s, t, i);
      } else if InTell(pc) {
        TellUnderLock(s, t, choice.near, i);
      } else if InShow(pc) {
        ShowUnderLock(s, t, choice.near, i);
      }
    }
  }

  lemma FreeingTurn(threads: nat, turns: seq<Turn>, ss: seq<State>, k: nat, i: nat)
    requires Trace(threads, turns, ss) && k < |turns| && i < ALL
    requires ss[k].slots[i].status != Free && ss[k + 1].slots[i].status == Free
    ensures Frees(turns, ss, k, i)
  {
    var t := turns[k].t;
    assert Goes(ss[k], turns[k], ss[k + 1]) && Inv(ss[k]) && Inv(ss[k + 1]);
    FreedByDisconnect(ss[k], t, turns[k].choice, i);
    HasMeans(ss[k], t, i);
    HasMeans(ss[k + 1], t, i);
  }

  lemma {:induction false} BecomesFree(ss: seq<State>, lo: nat, hi: nat, i: nat) returns (k: nat)
    requires lo < hi < |ss| && forall j: nat :: lo <= j <= hi ==> i < |ss[j].slots|
    requires ss[lo].slots[i].status != Free && ss[hi].slots[i].status == Free
    ensures lo <= k < hi && ss[k].slots[i].status != Free && ss[k + 1].slots[i].status == Free
    decreases hi
  {
    if ss[hi - 1].slots[i].status != Free {
      k := hi - 1;
    } else {
      k := BecomesFree(ss, lo, hi - 1, i);
    }
  }

  lemma FreedInBetween(threads: nat, turns: seq<Turn>, ss: seq<State>, lo: nat, hi: nat, i: nat)
    requires Trace(threads, turns, ss) && lo < hi <= |turns| && i < ALL
    requires ss[lo].slots[i].status != Free && ss[hi].slots[i].status == Free
    ensures exists k: nat :: lo <= k < hi && Frees(turns, ss, k, i)
  {
    forall j: nat | lo <= j <= hi ensures i < |ss[j].slots| {
      assert Inv(ss[j]);
    }
    var k := BecomesFree(ss, lo, hi, i);
    FreeingTurn(threads, turns, ss, k, i);
  }

  // Two turns of the allocations that have set slot i, with its freeing between them.
  ghost predicate Separated(turns: seq<Turn>, ss: seq<State>, r1: nat, r2: nat, t1: nat, t2: nat, i: nat) {
    && Sets(turns, ss, r1, t1, i, Free, Accepted) && Sets(turns, ss, r2, t2, i, Free, Accepted)
    && exists k: nat :: (r1 < k < r2 || r2 < k < r1) && Frees(turns, ss, k, i)
  }

  lemma SameNext(turns: seq<Turn>, r: nat, d1: nat, d2: nat, t: nat)
    requires Next(turns, r, d1, t) && Next(turns, r, d2, t)
    ensures d1 == d2
  {
  }

  lemma TakingsSeparated(threads: nat, turns: seq<Turn>, ss: seq<State>, r1: nat, r2: nat, t1: nat, t2: nat, i: nat)
    requires Trace(threads, turns, ss) && i < ALL && r1 < r2
    requires Sets(turns, ss, r1, t1, i, Free, Accepted) && Sets(turns, ss, r2, t2, i, Free, Accepted)
    ensures exists k: nat :: r1 < k < r2 && Frees(turns, ss, k, i)
  {
    FreedInBetween(threads, turns, ss, r1 + 1, r2, i);
  }

  lemma ReturnedSlot(threads: nat, turns: seq<Turn>, ss: seq<State>, d: nat, t: nat, i: nat) returns (r: nat)
    requires Trace(threads, turns, ss) && Returns(turns, ss, d, t, i)
    ensures i < ALL && Next(turns, r, d, t) && Sets(turns, ss, r, t, i, Free, Accepted)
  {
    AllocationTakes(threads, turns, ss, d, t, i);
    var p: nat, q: nat, r': nat :| Takes(turns, ss, p, q, r', t, i) && Next(turns, r', d, t);
    r := r';
    assert Inv(ss[r]);
  }

  /** Slot exclusivity over results: if two allocations of an interleaving return the same
      slot, whichever threads they ran in, each set it from FREE to ACCEPTED just before, and
      between the two a disconnect has freed it. */
  lemma ReturnsAreExclusive(threads: nat, turns: seq<Turn>, ss: seq<State>,
                            d1: nat, t1: nat, d2: nat, t2: nat, i: nat)
    requires Interleaving(threads, turns, ss) && d1 != d2
    requires Returns(turns, ss, d1, t1, i) && Returns(turns, ss, d2, t2, i)
    ensures exists r1: nat, r2: nat :: Next(turns, r1, d1, t1) && Next(turns, r2, d2, t2)
              && Separated(turns, ss, r1, r2, t1, t2, i)
  {
    TraceUpTo(threads, turns, ss, |turns|);
    var r1 := ReturnedSlot(threads, turns, ss, d1, t1, i);
    var r2 := ReturnedSlot(threads, turns, ss, d2, t2, i);
    if r1 == r2 {
      SameNext(turns, r1, d1, d2, t1);
    } else if r1 < r2 {
      TakingsSeparated(threads, turns, ss, r1, r2, t1, t2, i);
    } else {
      TakingsSeparated(threads, turns, ss, r2, r1, t2, t1, i);
    }
    assert Separated(turns, ss, r1, r2, t1, t2, i);
  }
}
