/** Whole runs of the server: one exact condition per event, and what it buys. */
module SightRuns {
  import opened SightTypes
  import opened SightProtocol
  import opened ClientReplica
  import opened SightInvariant
  import opened SightMoves

  // The events that keep the invariant, each by a condition on the state before it.
  ghost predicate Harmless(rel: Release, w: World, e: Event)
    requires Possible(w, e)
  {
    match e
    case EvAccept => true
    case EvLogin(c, spawn) => LoginHarmless(rel, w, c, spawn)
    case EvMove(m, dir, enter, leave) => MoveHarmless(w, m, dir)
    case EvBehave(n, roll) => true
    case EvDisconnect(who) => true
  }

  lemma StepExact(rel: Release, w: World, e: Event)
    requires Inv(w) && Possible(w, e)
    ensures Inv(Step(rel, w, e)) <==> Harmless(rel, w, e)
  {
    match e
    case EvAccept => AcceptKeeps(w);
    case EvLogin(c, spawn) => LoginExact(rel, w, c, spawn);
    case EvMove(m, dir, enter, leave) => MoveExact(w, m, dir, enter, leave);
    case EvBehave(n, roll) => BehaveKeeps(w, n, roll);
    case EvDisconnect(who) => DisconnectKeeps(w, who);
  }

  // The state before event k of a run.
  function Before(rel: Release, w: World, run: seq<Event>, k: nat): (w': World)
    requires PossibleRun(rel, w, run) && k <= |run|
    ensures k < |run| ==> Possible(w', run[k])
    decreases |run|
  {
    if k == 0 then w else Before(rel, Step(rel, w, run[0]), run[1..], k - 1)
  }

  ghost predicate InvThroughout(rel: Release, w: World, run: seq<Event>)
    requires PossibleRun(rel, w, run)
    decreases |run|
  {
    Inv(w) && (run != [] ==> InvThroughout(rel, Step(rel, w, run[0]), run[1..]))
  }

  ghost predicate HarmlessThroughout(rel: Release, w: World, run: seq<Event>)
    requires PossibleRun(rel, w, run)
    decreases |run|
  {
    run != [] ==> Harmless(rel, w, run[0]) && HarmlessThroughout(rel, Step(rel, w, run[0]), run[1..])
  }

  lemma {:induction false} RunExact(rel: Release, w: World, run: seq<Event>)
    requires Inv(w) && PossibleRun(rel, w, run)
    ensures InvThroughout(rel, w, run) <==> HarmlessThroughout(rel, w, run)
    ensures HarmlessThroughout(rel, w, run) ==> Inv(Run(rel, w, run))
    decreases |run|
  {
    if run != [] {
      StepExact(rel, w, run[0]);
      var w' := Step(rel, w, run[0]);
      if Inv(w') {
        RunExact(rel, w', run[1..]);
      } else if run[1..] == [] {
        assert !InvThroughout(rel, w', run[1..]);
      }
    }
  }

  /** Over every run from the initial table: view lists and client replicas are right
      after each event exactly when each event was harmless when it happened. */
  lemma AgreementOverRuns(rel: Release, run: seq<Event>)
    requires PossibleRun(rel, InitialWorld(), run)
    ensures InvThroughout(rel, InitialWorld(), run) <==> HarmlessThroughout(rel, InitialWorld(), run)
  {
    InitialInv();
    RunExact(rel, InitialWorld(), run);
  }

  /** View agreement: in every state that harmless events lead to, two in-game users list
      each other exactly when they are within range, an NPC in a list is within range,
      and NPCs list nobody. */
  lemma ViewAgreement(rel: Release, run: seq<Event>, v: Pid, u: Pid)
    requires PossibleRun(rel, InitialWorld(), run) && HarmlessThroughout(rel, InitialWorld(), run)
    requires var w := Run(rel, InitialWorld(), run); IsUser(v) && w[v].status == InGame
    requires u < ORDER_END_ALL && u != v
    ensures
      var w := Run(rel, InitialWorld(), run);
      && (IsUser(u) && w[u].status == InGame ==> (u in w[v].view <==> Near(w[v], w[u])))
      && (IsUser(u) && w[u].status == InGame ==> (u in w[v].view <==> v in w[u].view))
      && (IsUser(u) && w[u].status != InGame ==> u !in w[v].view)
      && (IsNpc(u) ==> w[u].view == {} && (u in w[v].view ==> Near(w[v], w[u])))
  {
    InitialInv();
    RunExact(rel, InitialWorld(), run);
    var w := Run(rel, InitialWorld(), run);
    assert ViewAgrees(w, v) && Formed(w[u], u);
    if IsUser(u) && w[u].status == InGame {
      assert ViewAgrees(w, u);
    }
  }

  // ------------------------------------------------------------------ a discipline

  // Only users in game move, and a login finds its slot's view list empty.
  ghost predicate Disciplined(w: World, e: Event)
    requires Possible(w, e)
  {
    match e
    case EvLogin(c, spawn) => w[c].status == Accepted ==> w[c].view == {}
    case EvMove(m, dir, enter, leave) => w[m].status == InGame
    case _ => true
  }

  ghost predicate DisciplinedThroughout(w: World, run: seq<Event>)
    requires PossibleRun(Keeps, w, run)
    decreases |run|
  {
    run != [] ==> Disciplined(w, run[0]) && DisciplinedThroughout(Step(Keeps, w, run[0]), run[1..])
  }

  lemma {:induction false} DisciplinedIsHarmless(w: World, run: seq<Event>)
    requires PossibleRun(Keeps, w, run) && DisciplinedThroughout(w, run)
    ensures HarmlessThroughout(Keeps, w, run)
    decreases |run|
  {
    if run != [] {
      assert Harmless(Keeps, w, run[0]);
      DisciplinedIsHarmless(Step(Keeps, w, run[0]), run[1..]);
    }
  }

  /** ... so a disciplined run, with a release that only releases, keeps lists and replicas
      right after every event. */
  lemma DisciplineIsEnough(run: seq<Event>)
    requires PossibleRun(Keeps, InitialWorld(), run) && DisciplinedThroughout(InitialWorld(), run)
    ensures HarmlessThroughout(Keeps, InitialWorld(), run) && InvThroughout(Keeps, InitialWorld(), run)
  {
    DisciplinedIsHarmless(InitialWorld(), run);
    AgreementOverRuns(Keeps, run);
  }
}
