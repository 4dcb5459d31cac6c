/** Peterson's lock as the two workers use it, one access to a shared variable per step,
    under sequential consistency. A worker may come back for the lock any number of
    times; the program's own workers take it once. */
module Peterson {

  /** Where a thread stands: outside; after `flag[me] = true`; about to read
      `flag[other]`; about to read `victim`, having found the flag up; holding the lock,
      before reading `sum`; having read it; having written it. */
  datatype Pc = Outside | FlagUp | SpinFlag | SpinVictim | Enter | ReadSum(seen: int) | WroteSum

  // `rounds` counts a thread's completed updates; `passed` counts how often the other
  // thread has entered since this one last wrote `victim`.
  datatype Thread = Thread(pc: Pc, flag: bool, rounds: nat, passed: nat)

  datatype State = State(t0: Thread, t1: Thread, victim: bool, sum: int) {
    // Threads 0 and 1 are named false and true.
    function Of(t: bool): Thread {
      if t then t1 else t0
    }

    function With(t: bool, th: Thread): State {
      if t then this.(t1 := th) else this.(t0 := th)
    }
  }

  const INITIAL := State(Thread(Outside, false, 0, 0), Thread(Outside, false, 0, 0), false, 0)

  // A 32-bit signed value, wrapped round.
  function Wrap(x: int): (r: int)
    ensures -0x8000_0000 <= r < 0x8000_0000 && (r - x) % 0x1_0000_0000 == 0
  {
    (x + 0x8000_0000) % 0x1_0000_0000 - 0x8000_0000
  }

  // Thread t takes one step; `add` is the local sum it contributes.
  function Step(s: State, t: bool, add: int): State {
    var me, other := s.Of(t), s.Of(!t);
    match me.pc
    case Outside => s.With(t, me.(pc := FlagUp, flag := true))
    case FlagUp => s.With(t, me.(pc := SpinFlag, passed := 0)).(victim := t)
    case SpinFlag => if other.flag then s.With(t, me.(pc := SpinVictim)) else Entered(s, t)
    case SpinVictim => if s.victim == t then s.With(t, me.(pc := SpinFlag)) else Entered(s, t)
    case Enter => s.With(t, me.(pc := ReadSum(s.sum)))
    case ReadSum(seen) => s.With(t, me.(pc := WroteSum, rounds := me.rounds + 1)).(sum := Wrap(seen + add))
    case WroteSum => s.With(t, me.(pc := Outside, flag := false))
  }

  function Entered(s: State, t: bool): State {
    var other := s.Of(!t);
    s.With(t, s.Of(t).(pc := Enter)).With(!t, other.(passed := other.passed + 1))
  }

  predicate Spinning(th: Thread) {
    th.pc.SpinFlag? || th.pc.SpinVictim?
  }

  // Between the end of PetersonLock and the end of PetersonUnlock.
  predicate Holding(th: Thread) {
    th.pc.Enter? || th.pc.ReadSum? || th.pc.WroteSum?
  }

  // The contributions the two threads have completed so far.
  function Contributed(s: State, add: int): int {
    add * (s.t0.rounds + s.t1.rounds)
  }

  // What one thread can rely on.
  predicate ThreadInv(s: State, t: bool, add: int) {
    var me, other := s.Of(t), s.Of(!t);
    && (me.flag <==> !me.pc.Outside?)
    && (Holding(me) && (Spinning(other) || Holding(other)) ==> s.victim == !t)
    && (me.pc.ReadSum? ==> me.pc.seen == s.sum)
    && (Spinning(me) ==> me.passed <= 1)
    && (Spinning(me) && Spinning(other) && me.passed == 1 ==> s.victim == !t)
  }

  predicate Inv(s: State, add: int) {
    ThreadInv(s, false, add) && ThreadInv(s, true, add) && s.sum == Wrap(Contributed(s, add))
  }

  lemma WrapAdds(x: int, y: int)
    ensures Wrap(Wrap(x) + y) == Wrap(x + y)
  {
    var m := 0x1_0000_0000;
    var q := (x + 0x8000_0000) / m;
    assert Wrap(x) == x - q * m;
    WrapShifts(x + y, -q);
  }

  lemma WrapShifts(x: int, k: int)
    ensures Wrap(x + k * 0x1_0000_0000) == Wrap(x)
  {
  }

  lemma StepKeepsInv(s: State, t: bool, add: int)
    requires Inv(s, add)
    ensures Inv(Step(s, t, add), add)
  {
    var s' := Step(s, t, add);
    if s.Of(t).pc.ReadSum? {
      WrapAdds(Contributed(s, add), add);
      assert Contributed(s', add) == Contributed(s, add) + add;
    }
  }

  // ------------------------------------------------------------------ runs

  // The state after a schedule: which thread takes each step.
  function Run(s: State, schedule: seq<bool>, add: int): State
    decreases |schedule|
  {
    if schedule == [] then s else Run(Step(s, schedule[0], add), schedule[1..], add)
  }

  lemma {:induction false} RunKeepsInv(s: State, schedule: seq<bool>, add: int)
    requires Inv(s, add)
    ensures Inv(Run(s, schedule, add), add)
    decreases |schedule|
  {
    if schedule != [] {
      StepKeepsInv(s, schedule[0], add);
      RunKeepsInv(Step(s, schedule[0], add), schedule[1..], add);
    }
  }

  /** Mutual exclusion: under no schedule do both threads hold the lock. */
  lemma MutualExclusion(schedule: seq<bool>, add: int)
    ensures var s := Run(INITIAL, schedule, add); !(Holding(s.t0) && Holding(s.t1))
  {
    RunKeepsInv(INITIAL, schedule, add);
  }

  /** Bounded bypass: once a thread has written `victim`, the other enters at most once
      before it does. */
  lemma BoundedBypass(schedule: seq<bool>, add: int, t: bool)
    ensures var s := Run(INITIAL, schedule, add); Spinning(s.Of(t)) ==> s.Of(t).passed <= 1
  {
    RunKeepsInv(INITIAL, schedule, add);
  }

  /** No lost update: whenever the sum is read, outside or inside an update, it is the
      wrapped total of the updates completed so far. */
  lemma NoLostUpdate(schedule: seq<bool>, add: int)
    ensures var s := Run(INITIAL, schedule, add); s.sum == Wrap(add * (s.t0.rounds + s.t1.rounds))
  {
    RunKeepsInv(INITIAL, schedule, add);
  }

  /** The two workers' program: each has gone round once with the same local sum, which
      two of fit in 32 bits, and the total is exactly twice it. */
  lemma TwoWorkersTotal(schedule: seq<bool>, n: nat)
    requires 2 * n < 0x8000_0000
    requires var s := Run(INITIAL, schedule, n); s.t0.rounds == 1 && s.t1.rounds == 1
    ensures Run(INITIAL, schedule, n).sum == 2 * n
  {
    NoLostUpdate(schedule, n);
    WrapSmall(2 * n);
  }

  lemma WrapSmall(x: nat)
    requires x < 0x8000_0000
    ensures Wrap(x) == x
  {
  }

  // ------------------------------------------------------------------ progress

  // The spin condition of t would be found true in this state.
  predicate Blocked(s: State, t: bool) {
    s.Of(!t).flag && s.victim == t
  }

  // t alone gets in within two of its own steps.
  predicate EntersAlone(s: State, t: bool, add: int) {
    || Holding(Step(s, t, add).Of(t))
    || Holding(Step(Step(s, t, add), t, add).Of(t))
  }

  /** Deadlock freedom: of two spinning threads exactly one is blocked, and the other one
      gets in by itself; a thread spinning against one outside gets in by itself. */
  lemma DeadlockFreedom(schedule: seq<bool>, add: int)
    ensures
      var s := Run(INITIAL, schedule, add);
      && (Spinning(s.t0) && Spinning(s.t1) ==> (Blocked(s, false) <==> !Blocked(s, true)))
      && (Spinning(s.t0) && Spinning(s.t1) ==> EntersAlone(s, !s.victim, add))
      && (forall t :: Spinning(s.Of(t)) && s.Of(!t).pc.Outside? ==> EntersAlone(s, t, add))
  {
    RunKeepsInv(INITIAL, schedule, add);
  }

  // ------------------------------------------------------------------ no starvation

  function Steps(schedule: seq<bool>, t: bool): nat {
    if schedule == [] then 0 else (if schedule[0] == t then 1 else 0) + Steps(schedule[1..], t)
  }

  // t holds the lock at some moment while the schedule runs.
  predicate HoldsWithin(s: State, schedule: seq<bool>, add: int, t: bool)
    decreases |schedule|
  {
    Holding(s.Of(t)) || (schedule != [] && HoldsWithin(Step(s, schedule[0], add), schedule[1..], add, t))
  }

  // The other thread has written `victim` after t: it cannot overtake t any more.
  predicate Settled(s: State, t: bool) {
    Spinning(s.Of(t)) && Spinning(s.Of(!t)) && s.victim == !t
  }

  // Steps the other thread can take before it has yielded to the waiting thread t.
  function StepsToSettle(s: State, t: bool): nat {
    var o := s.Of(!t);
    match o.pc
    case SpinFlag => if s.victim == !t then 0 else 7
    case SpinVictim => if s.victim == !t then 0 else 6
    case Enter => 5
    case ReadSum(_) => 4
    case WroteSum => 3
    case Outside => 2
    case FlagUp => 1
  }

  // Steps the waiting thread t still needs once the other has yielded to it.
  function StepsToEnter(s: State, t: bool): nat {
    if s.Of(t).pc.SpinVictim? then 1 else 2
  }

  lemma OtherStepSettles(s: State, t: bool, add: int)
    requires Inv(s, add) && Spinning(s.Of(t)) && !Settled(s, t)
    ensures var s' := Step(s, !t, add);
      && Spinning(s'.Of(t)) && StepsToSettle(s', t) < StepsToSettle(s, t)
      && (Settled(s', t) <==> StepsToSettle(s', t) == 0)
  {
  }

  lemma OwnStepWaits(s: State, t: bool, add: int)
    requires Inv(s, add) && Spinning(s.Of(t)) && !Settled(s, t)
    ensures var s' := Step(s, t, add);
      Holding(s'.Of(t)) || (Spinning(s'.Of(t)) && StepsToSettle(s', t) == StepsToSettle(s, t) && !Settled(s', t))
  {
  }

  lemma {:induction false} SettledEnters(s: State, schedule: seq<bool>, add: int, t: bool)
    requires Inv(s, add) && Settled(s, t)
    requires Steps(schedule, t) >= StepsToEnter(s, t)
    ensures HoldsWithin(s, schedule, add, t)
    decreases |schedule|
  {
    var s' := Step(s, schedule[0], add);
    StepKeepsInv(s, schedule[0], add);
    if schedule[0] == t {
      if !Holding(s'.Of(t)) {
        SettledEnters(s', schedule[1..], add, t);
      }
    } else {
      SettledEnters(s', schedule[1..], add, t);
    }
  }

  // In any interleaving in which the other thread takes seven steps and then the waiting
  // thread takes two of its own, the waiting thread gets the lock.
  lemma {:induction false} WaiterEnters(s: State, first: seq<bool>, second: seq<bool>, add: int, t: bool)
    requires Inv(s, add) && Spinning(s.Of(t))
    requires Steps(first, !t) >= StepsToSettle(s, t) && Steps(second, t) >= 2
    ensures HoldsWithin(s, first + second, add, t)
    decreases |first|
  {
    if Settled(s, t) {
      StepsConcat(first, second, t);
      SettledEnters(s, first + second, add, t);
    } else {
      assert first != [] ;
      var s' := Step(s, first[0], add);
      assert (first + second)[0] == first[0] && (first + second)[1..] == first[1..] + second;
      StepKeepsInv(s, first[0], add);
      if first[0] == t {
        OwnStepWaits(s, t, add);
        if !Holding(s'.Of(t)) {
          WaiterEnters(s', first[1..], second, add, t);
        }
      } else {
        OtherStepSettles(s, t, add);
        WaiterEnters(s', first[1..], second, add, t);
      }
    }
  }

  lemma {:induction false} StepsConcat(a: seq<bool>, b: seq<bool>, t: bool)
    ensures Steps(a + b, t) == Steps(a, t) + Steps(b, t)
  {
    if a == [] {
      assert a + b == b;
    } else {
      assert (a + b)[1..] == a[1..] + b;
      StepsConcat(a[1..], b, t);
    }
  }

  // The schedule in which t takes n steps by itself.
  function Alone(t: bool, n: nat): seq<bool> {
    seq(n, _ => t)
  }

  lemma RunThree(s: State, t: bool, add: int)
    ensures Run(s, Alone(t, 3), add) == Step(Step(Step(s, t, add), t, add), t, add)
  {
    var s1 := Step(s, t, add);
    assert Alone(t, 3)[1..] == Alone(t, 2) && Alone(t, 2)[1..] == Alone(t, 1) && Alone(t, 1)[1..] == [];
    assert Run(s, Alone(t, 3), add) == Run(s1, Alone(t, 2), add);
    assert Run(s1, Alone(t, 2), add) == Run(Step(s1, t, add), Alone(t, 1), add);
  }

  /** Uncontended entry: whenever both threads are outside, three steps of either one alone
      bring it the lock, and three more bring it out again with its contribution added once
      and nothing else changed. */
  lemma AloneGoesRound(before: seq<bool>, add: int, t: bool)
    requires var s := Run(INITIAL, before, add); s.t0.pc.Outside? && s.t1.pc.Outside?
    ensures
      var s := Run(INITIAL, before, add);
      var s3 := Run(s, Alone(t, 3), add);
      var s6 := Run(s3, Alone(t, 3), add);
      && Holding(s3.Of(t)) && s3.sum == s.sum
      && s6.Of(t).pc.Outside? && !s6.Of(t).flag && s6.Of(t).rounds == s.Of(t).rounds + 1
      && s6.Of(!t).pc.Outside? && s6.Of(!t).rounds == s.Of(!t).rounds
      && s6.sum == Wrap(s.sum + add)
  {
    var s := Run(INITIAL, before, add);
    RunKeepsInv(INITIAL, before, add);
    RunThree(s, t, add);
    RunThree(Run(s, Alone(t, 3), add), t, add);
  }

  // In two steps of its own a thread has the lock, or begins to spin, or did have it.
  function StepsToSpin(s: State, t: bool): nat {
    match s.Of(t).pc
    case Outside => 2
    case FlagUp => 1
    case _ => 0
  }

  lemma {:induction false} ContenderSpins(s: State, schedule: seq<bool>, later: seq<bool>, add: int, t: bool)
    returns (rest: seq<bool>)
    requires Inv(s, add) && !Holding(s.Of(t)) && Steps(schedule, t) >= StepsToSpin(s, t)
    ensures |rest| <= |schedule|
    ensures
      var s' := Run(s, schedule[..|schedule| - |rest|], add);
      && Inv(s', add) && Spinning(s'.Of(t))
      && (HoldsWithin(s', rest + later, add, t) ==> HoldsWithin(s, schedule + later, add, t))
    decreases |schedule|
  {
    if Spinning(s.Of(t)) {
      rest := schedule;
      assert schedule[..0] == [];
    } else {
      var s1 := Step(s, schedule[0], add);
      StepKeepsInv(s, schedule[0], add);
      rest := ContenderSpins(s1, schedule[1..], later, add, t);
      var n := |schedule| - |rest|;
      assert schedule[..n][0] == schedule[0] && schedule[..n][1..] == schedule[1..][..n - 1];
      assert (schedule + later)[1..] == schedule[1..] + later && (schedule + later)[0] == schedule[0];
    }
  }

  lemma {:induction false} MoreSteps(a: seq<bool>, b: seq<bool>, t: bool)
    ensures Steps(a + b, t) >= Steps(b, t)
  {
    StepsConcat(a, b, t);
  }

  /** No starvation: wherever thread t stands, outside included, it holds the lock at some
      moment of any interleaving in which it takes two steps, then the other one seven, and
      then it two more, whatever else happens in between. */
  lemma NoStarvation(before: seq<bool>, begin: seq<bool>, first: seq<bool>, second: seq<bool>, add: int, t: bool)
    requires Steps(begin, t) >= 2 && Steps(first, !t) >= 7 && Steps(second, t) >= 2
    ensures HoldsWithin(Run(INITIAL, before, add), begin + (first + second), add, t)
  {
    var s := Run(INITIAL, before, add);
    RunKeepsInv(INITIAL, before, add);
    if !Holding(s.Of(t)) {
      var rest := ContenderSpins(s, begin, first + second, add, t);
      var s' := Run(s, begin[..|begin| - |rest|], add);
      MoreSteps(rest, first, !t);
      WaiterEnters(s', rest + first, second, add, t);
      assert (rest + first) + second == rest + (first + second);
    }
  }

  // Going on with one thread alone from where both are outside.
  lemma RoundAfter(before: seq<bool>, add: int, t: bool) returns (after: seq<bool>)
    requires var s := Run(INITIAL, before, add); s.t0.pc.Outside? && s.t1.pc.Outside?
    ensures
      var s, s' := Run(INITIAL, before, add), Run(INITIAL, after, add);
      && s'.t0.pc.Outside? && s'.t1.pc.Outside?
      && s'.Of(t).rounds == s.Of(t).rounds + 1 && s'.Of(!t).rounds == s.Of(!t).rounds
  {
    AloneGoesRound(before, add, t);
    RunConcat(INITIAL, before, Alone(t, 3), add);
    RunConcat(INITIAL, before + Alone(t, 3), Alone(t, 3), add);
    after := before + Alone(t, 3) + Alone(t, 3);
  }

  /** The program itself: for every local sum the two workers have a schedule that brings
      each round once, and then the total is twice the local sum, wrapped. */
  lemma TwoWorkersHaveARun(n: int) returns (schedule: seq<bool>)
    ensures
      var s := Run(INITIAL, schedule, n);
      && s.t0.rounds == 1 && s.t1.rounds == 1 && s.t0.pc.Outside? && s.t1.pc.Outside?
      && s.sum == Wrap(2 * n)
  {
    assert Run(INITIAL, [], n) == INITIAL;
    var first := RoundAfter([], n, false);
    schedule := RoundAfter(first, n, true);
    NoLostUpdate(schedule, n);
  }

  lemma {:induction false} RunConcat(s: State, a: seq<bool>, b: seq<bool>, add: int)
    ensures Run(s, a + b, add) == Run(Run(s, a, add), b, add)
    decreases |a|
  {
    if a == [] {
      assert a + b == b;
    } else {
      assert (a + b)[0] == a[0] && (a + b)[1..] == a[1..] + b;
      RunConcat(Step(s, a[0], add), a[1..], b, add);
    }
  }
}
