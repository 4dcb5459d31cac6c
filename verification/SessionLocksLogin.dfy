/** What a login has done by the time its thread is idle again. */
module SessionLocksLogin {
  import opened SessionLocks
  import opened SessionLocksProofs
  import opened SessionLocksRuns
  import opened SessionLocksResults
  import opened SessionLocksOperations

  /** What a login of c begun by turn a has done by state e. It found the slot free and
      changed nothing; or in game, and has disconnected it; or ACCEPTED, and has set it INGAME
      under its lock and then gone round all other users and after them all other sessions,
      each time locking, looking, and locking the view exactly if the two meet. */
  ghost predicate LoggedIn(turns: seq<Turn>, ss: seq<State>, a: nat, e: nat, t: nat, c: nat)
    requires e <= |turns| < |ss|
  {
    || (exists p: nat, q: nat :: q < e && Finds(turns, ss, a, p, q, t, c, Free) && SetsNothing(turns, ss, a, e, t))
    || (exists p: nat, q: nat, d: nat :: d < e && Finds(turns, ss, a, p, q, t, c, InGame)
          && Next(turns, q, d, t) && Disconnected(turns, ss, d, e, t, c))
    || (exists p: nat, q: nat, r: nat, b: nat :: Enters(turns, ss, a, p, q, r, t, c)
          && GoneRound(turns, ss, r, b, e, t, c))
  }

  ghost predicate GoneRound(turns: seq<Turn>, ss: seq<State>, r: nat, b: nat, e: nat, t: nat, c: nat) {
    r < b < e && AllTold(turns, ss, r, b, t, c, MAX_USER, false) && AllTold(turns, ss, b, e, t, c, ALL, true)
  }

  // ------------------------------------------------- one loop, one visit

  ghost predicate JustLocked(turns: seq<Turn>, ss: seq<State>, lo: nat, m: nat, t: nat, i: nat) {
    exists p: nat :: lo < p && LastOwn(turns, p, m, t) && Locks(turns, ss, p, t, i)
  }

  ghost predicate JustLooked(turns: seq<Turn>, ss: seq<State>, lo: nat, m: nat, t: nat, i: nat, meets: bool) {
    exists p: nat, q: nat :: lo < p && LookedAt(turns, ss, p, q, m, t, i, meets)
  }

  predicate LookedAt(turns: seq<Turn>, ss: seq<State>, p: nat, q: nat, m: nat, t: nat, i: nat, meets: bool) {
    Looks(turns, ss, p, q, t, i) && LastOwn(turns, q, m, t) && (Meets(turns, ss, q, i) <==> meets)
  }

  datatype Phase = AtWant | AtTest | AtEdit | AtEdited | AtUnlock

  // A loop that began after turn lo has come to slot i, and there as far as this.
  ghost predicate LoopTrail(turns: seq<Turn>, ss: seq<State>, lo: nat, m: nat, t: nat, c: nat, i: nat, own: bool,
                            phase: Phase)
  {
    && AllTold(turns, ss, lo, m, t, c, i, own)
    && (phase != AtWant ==> i != c)
    && match phase
       case AtWant => true
       case AtTest => JustLocked(turns, ss, lo, m, t, i)
       case AtEdit => JustLooked(turns, ss, lo, m, t, i, true)
       case AtEdited => ToldOf(turns, ss, lo, m, t, i, c, own)
       case AtUnlock => ToldOf(turns, ss, lo, m, t, i, c, own) || JustLooked(turns, ss, lo, m, t, i, false)
  }

  lemma ToldLater(turns: seq<Turn>, ss: seq<State>, lo: nat, hi: nat, hi': nat, t: nat, j: nat, c: nat, own: bool)
    requires ToldOf(turns, ss, lo, hi, t, j, c, own) && hi <= hi'
    ensures ToldOf(turns, ss, lo, hi', t, j, c, own)
  {
    var v := if own then c else j;
    var p: nat, q: nat, r: nat :| lo < p && r < hi && ToldAt(turns, ss, p, q, r, t, j, v);
    assert lo < p && r < hi' && ToldAt(turns, ss, p, q, r, t, j, v);
  }

  lemma AllToldLater(turns: seq<Turn>, ss: seq<State>, lo: nat, hi: nat, hi': nat, t: nat, c: nat, n: nat, own: bool)
    requires AllTold(turns, ss, lo, hi, t, c, n, own) && hi <= hi'
    ensures AllTold(turns, ss, lo, hi', t, c, n, own)
  {
    forall j: nat | j < n && j != c ensures ToldOf(turns, ss, lo, hi', t, j, c, own) {
      assert ToldOf(turns, ss, lo, hi, t, j, c, own);
      ToldLater(turns, ss, lo, hi, hi', t, j, c, own);
    }
  }

  lemma LoopOther(turns: seq<Turn>, ss: seq<State>, lo: nat, m: nat, t: nat, c: nat, i: nat, own: bool, phase: Phase)
    requires m < |turns| && turns[m].t != t
    requires LoopTrail(turns, ss, lo, m, t, c, i, own, phase)
    ensures LoopTrail(turns, ss, lo, m + 1, t, c, i, own, phase)
  {
    AllToldLater(turns, ss, lo, m, m + 1, t, c, i, own);
    if phase.AtTest? {
      var p: nat :| lo < p && LastOwn(turns, p, m, t) && Locks(turns, ss, p, t, i);
      assert LastOwn(turns, p, m + 1, t);
    } else if !phase.AtWant? {
      if ToldOf(turns, ss, lo, m, t, i, c, own) {
        ToldLater(turns, ss, lo, m, m + 1, t, i, c, own);
      }
      forall meets: bool | JustLooked(turns, ss, lo, m, t, i, meets)
        ensures JustLooked(turns, ss, lo, m + 1, t, i, meets)
      {
        var p: nat, q: nat :| lo < p && LookedAt(turns, ss, p, q, m, t, i, meets);
        assert LookedAt(turns, ss, p, q, m + 1, t, i, meets);
      }
    }
  }

  lemma LoopLocks(turns: seq<Turn>, ss: seq<State>, lo: nat, m: nat, t: nat, c: nat, i: nat, own: bool)
    requires m < |turns| && lo < m && i != c && Locks(turns, ss, m, t, i)
    requires LoopTrail(turns, ss, lo, m, t, c, i, own, AtWant)
    ensures LoopTrail(turns, ss, lo, m + 1, t, c, i, own, AtTest)
  {
    AllToldLater(turns, ss, lo, m, m + 1, t, c, i, own);
    assert LastOwn(turns, m, m + 1, t);
  }

  lemma LoopLooks(turns: seq<Turn>, ss: seq<State>, lo: nat, m: nat, t: nat, c: nat, i: nat, own: bool)
    requires m < |turns| && m < |ss| && turns[m].t == t && Has(ss[m], t, i)
    requires LoopTrail(turns, ss, lo, m, t, c, i, own, AtTest)
    ensures LoopTrail(turns, ss, lo, m + 1, t, c, i, own, if Meets(turns, ss, m, i) then AtEdit else AtUnlock)
  {
    AllToldLater(turns, ss, lo, m, m + 1, t, c, i, own);
    var p: nat :| lo < p && LastOwn(turns, p, m, t) && Locks(turns, ss, p, t, i);
    assert LookedAt(turns, ss, p, m, m + 1, t, i, Meets(turns, ss, m, i));
  }

  lemma LoopEdits(turns: seq<Turn>, ss: seq<State>, lo: nat, m: nat, t: nat, c: nat, i: nat, own: bool)
    requires m < |turns| && m + 1 < |ss| && turns[m].t == t && Has(ss[m], t, i) && Has(ss[m + 1], t, i)
    requires HasView(ss[m + 1], t, if own then c else i)
    requires LoopTrail(turns, ss, lo, m, t, c, i, own, AtEdit)
    ensures LoopTrail(turns, ss, lo, m + 1, t, c, i, own, AtEdited)
  {
    AllToldLater(turns, ss, lo, m, m + 1, t, c, i, own);
    var p: nat, q: nat :| lo < p && LookedAt(turns, ss, p, q, m, t, i, true);
    assert ToldAt(turns, ss, p, q, m, t, i, if own then c else i);
  }

  lemma LoopEdited(turns: seq<Turn>, ss: seq<State>, lo: nat, m: nat, t: nat, c: nat, i: nat, own: bool)
    requires LoopTrail(turns, ss, lo, m, t, c, i, own, AtEdited)
    ensures LoopTrail(turns, ss, lo, m + 1, t, c, i, own, AtUnlock)
  {
    AllToldLater(turns, ss, lo, m, m + 1, t, c, i, own);
    ToldLater(turns, ss, lo, m, m + 1, t, i, c, own);
  }

  lemma LoopUnlocks(turns: seq<Turn>, ss: seq<State>, lo: nat, m: nat, t: nat, c: nat, i: nat, own: bool)
    requires m < |turns| && m + 1 < |ss| && turns[m].t == t && Has(ss[m], t, i) && !Has(ss[m + 1], t, i)
    requires LoopTrail(turns, ss, lo, m, t, c, i, own, AtUnlock)
    ensures LoopTrail(turns, ss, lo, m + 1, t, c, i + 1, own, AtWant)
  {
    AllToldLater(turns, ss, lo, m, m + 1, t, c, i, own);
    if ToldOf(turns, ss, lo, m, t, i, c, own) {
      ToldLater(turns, ss, lo, m, m + 1, t, i, c, own);
    } else {
      var p: nat, q: nat :| lo < p && LookedAt(turns, ss, p, q, m, t, i, false);
      assert ToldAt(turns, ss, p, q, m, t, i, if own then c else i);
      assert ToldOf(turns, ss, lo, m + 1, t, i, c, own);
    }
  }

  lemma LoopSkips(turns: seq<Turn>, ss: seq<State>, lo: nat, m: nat, t: nat, c: nat, own: bool)
    requires LoopTrail(turns, ss, lo, m, t, c, c, own, AtWant)
    ensures LoopTrail(turns, ss, lo, m + 1, t, c, c + 1, own, AtWant)
  {
    AllToldLater(turns, ss, lo, m, m + 1, t, c, c, own);
  }

  // ------------------------------------------------- the whole login

  datatype LoginMemo = LoginMemo(p: nat, q: nat, r: nat, b: nat, drop: Memo)

  function PhaseOf(pc: Pc): Phase {
    if pc.TellTest? || pc.ShowTest? then AtTest
    else if pc.TellWantView? || pc.ShowWantView? then AtEdit
    else if pc.TellUnlockView? || pc.ShowUnlockView? then AtEdited
    else if pc.TellUnlock? || pc.ShowUnlock? then AtUnlock
    else AtWant
  }

  ghost predicate HeadTrail(turns: seq<Turn>, ss: seq<State>, a: nat, m: nat, t: nat, c: nat, w: LoginMemo)
    requires m <= |turns| < |ss| && t < |ss[m].threads|
  {
    var pc := ss[m].threads[t];
    && InLogin(pc) && pc.c == c
    && (pc.LoginWant? ==> LastOwn(turns, a, m, t) && SetsNothing(turns, ss, a, m, t))
    && (pc.LoginTest? ==>
          && Next(turns, a, w.p, t) && LastOwn(turns, w.p, m, t) && Locks(turns, ss, w.p, t, c)
          && SetsNothing(turns, ss, a, m, t))
    && (pc.LoginLeave? ==>
          && Finds(turns, ss, a, w.p, w.q, t, c, if pc.again then InGame else Free)
          && LastOwn(turns, w.q, m, t) && SetsNothing(turns, ss, a, m, t))
    && (pc.LoginEnter? ==> Finds(turns, ss, a, w.p, w.q, t, c, Accepted) && LastOwn(turns, w.q, m, t))
    && (pc.LoginUnlock? ==> w.r < m && Enters(turns, ss, a, w.p, w.q, w.r, t, c))
  }

  ghost predicate TellTrail(turns: seq<Turn>, ss: seq<State>, a: nat, m: nat, t: nat, c: nat, w: LoginMemo)
    requires m <= |turns| < |ss| && t < |ss[m].threads|
  {
    var pc := ss[m].threads[t];
    && InTell(pc) && pc.c == c && w.r < m && Enters(turns, ss, a, w.p, w.q, w.r, t, c)
    && LoopTrail(turns, ss, w.r, m, t, c, pc.i, false, PhaseOf(pc))
  }

  ghost predicate ShowTrail(turns: seq<Turn>, ss: seq<State>, a: nat, m: nat, t: nat, c: nat, w: LoginMemo)
    requires m <= |turns| < |ss| && t < |ss[m].threads|
  {
    var pc := ss[m].threads[t];
    && InShow(pc) && pc.c == c && w.r < w.b < m && Enters(turns, ss, a, w.p, w.q, w.r, t, c)
    && AllTold(turns, ss, w.r, w.b, t, c, MAX_USER, false)
    && LoopTrail(turns, ss, w.b, m, t, c, pc.i, true, PhaseOf(pc))
  }

  ghost predicate AgainTrail(turns: seq<Turn>, ss: seq<State>, a: nat, m: nat, t: nat, c: nat, w: LoginMemo)
    requires m <= |turns| < |ss| && t < |ss[m].threads|
  {
    && InDrop(ss[m].threads[t]) && w.r < m && Finds(turns, ss, a, w.p, w.q, t, c, InGame)
    && Next(turns, w.q, w.r, t) && DropTrail(turns, ss, w.r, m, t, c, w.drop)
  }

  ghost predicate LoginTrail(turns: seq<Turn>, ss: seq<State>, a: nat, m: nat, t: nat, c: nat, w: LoginMemo)
    requires m <= |turns| < |ss| && t < |ss[m].threads|
  {
    || HeadTrail(turns, ss, a, m, t, c, w) || TellTrail(turns, ss, a, m, t, c, w)
    || ShowTrail(turns, ss, a, m, t, c, w) || AgainTrail(turns, ss, a, m, t, c, w)
    || (ss[m].threads[t].Idle? && LoggedIn(turns, ss, a, m, t, c))
  }

  lemma HeadOther(turns: seq<Turn>, ss: seq<State>, a: nat, m: nat, t: nat, c: nat, w: LoginMemo)
    requires OtherTurn(turns, ss, m, t) && HeadTrail(turns, ss, a, m, t, c, w)
    ensures HeadTrail(turns, ss, a, m + 1, t, c, w)
  {
    assert forall p: nat :: LastOwn(turns, p, m, t) ==> LastOwn(turns, p, m + 1, t);
  }

  lemma TellOther(turns: seq<Turn>, ss: seq<State>, a: nat, m: nat, t: nat, c: nat, w: LoginMemo)
    requires OtherTurn(turns, ss, m, t) && TellTrail(turns, ss, a, m, t, c, w)
    ensures TellTrail(turns, ss, a, m + 1, t, c, w)
  {
    var pc := ss[m].threads[t];
    LoopOther(turns, ss, w.r, m, t, c, pc.i, false, PhaseOf(pc));
  }

  lemma ShowOther(turns: seq<Turn>, ss: seq<State>, a: nat, m: nat, t: nat, c: nat, w: LoginMemo)
    requires OtherTurn(turns, ss, m, t) && ShowTrail(turns, ss, a, m, t, c, w)
    ensures ShowTrail(turns, ss, a, m + 1, t, c, w)
  {
    var pc := ss[m].threads[t];
    LoopOther(turns, ss, w.b, m, t, c, pc.i, true, PhaseOf(pc));
  }

  // The steps up to the unlock of the newcomer's session, one by one.
  lemma LoginWantOwn(turns: seq<Turn>, ss: seq<State>, a: nat, m: nat, t: nat, c: nat, w: LoginMemo)
    requires OwnTurn(turns, ss, m, t) && c < ALL && ss[m].threads[t].LoginWant?
    requires HeadTrail(turns, ss, a, m, t, c, w)
    ensures HeadTrail(turns, ss, a, m + 1, t, c, w.(p := m))
  {
    assert LastOwn(turns, m, m + 1, t);
    assert ss[m + 1].threads[t] == LoginTest(c) && SameStatuses(ss[m], ss[m + 1]);
  }

  lemma LoginTestOwn(turns: seq<Turn>, ss: seq<State>, a: nat, m: nat, t: nat, c: nat, w: LoginMemo)
    requires OwnTurn(turns, ss, m, t) && c < ALL && ss[m].threads[t].LoginTest?
    requires HeadTrail(turns, ss, a, m, t, c, w)
    ensures HeadTrail(turns, ss, a, m + 1, t, c, w.(q := m))
  {
    assert LastOwn(turns, m, m + 1, t) && SameStatuses(ss[m], ss[m + 1]);
    assert ss[m + 1].threads[t] ==
      match ss[m].slots[c].status
      case Free => LoginLeave(c, false)
      case InGame => LoginLeave(c, true)
      case Accepted => LoginEnter(c);
    assert Finds(turns, ss, a, w.p, m, t, c, ss[m].slots[c].status);
  }

  lemma LoginLeaveOwn(turns: seq<Turn>, ss: seq<State>, a: nat, m: nat, t: nat, c: nat, w: LoginMemo)
    requires OwnTurn(turns, ss, m, t) && c < ALL && ss[m].threads[t].LoginLeave?
    requires HeadTrail(turns, ss, a, m, t, c, w)
    ensures
      if ss[m].threads[t].again then AgainTrail(turns, ss, a, m + 1, t, c, w.(r := m))
      else ss[m + 1].threads[t].Idle? && LoggedIn(turns, ss, a, m + 1, t, c)
  {
    assert LastOwn(turns, m, m + 1, t) && SameStatuses(ss[m], ss[m + 1]);
    if ss[m].threads[t].again {
      assert ss[m + 1].threads[t] == DropWant(c) && Next(turns, w.q, m, t);
    } else {
      assert ss[m + 1].threads[t] == Idle;
      assert Finds(turns, ss, a, w.p, w.q, t, c, Free) && SetsNothing(turns, ss, a, m + 1, t);
    }
  }

  lemma LoginEnterOwn(turns: seq<Turn>, ss: seq<State>, a: nat, m: nat, t: nat, c: nat, w: LoginMemo)
    requires OwnTurn(turns, ss, m, t) && c < ALL && ss[m].threads[t].LoginEnter?
    requires HeadTrail(turns, ss, a, m, t, c, w)
    ensures HeadTrail(turns, ss, a, m + 1, t, c, w.(r := m))
  {
    assert ss[m + 1].threads[t] == LoginUnlock(c);
    assert Enters(turns, ss, a, w.p, w.q, m, t, c);
  }

  lemma LoginUnlockOwn(turns: seq<Turn>, ss: seq<State>, a: nat, m: nat, t: nat, c: nat, w: LoginMemo)
    requires OwnTurn(turns, ss, m, t) && c < ALL && ss[m].threads[t].LoginUnlock?
    requires HeadTrail(turns, ss, a, m, t, c, w)
    ensures TellTrail(turns, ss, a, m + 1, t, c, w)
  {
    assert ss[m + 1].threads[t] == TellWant(c, 0);
  }

  // One step of a loop, as the locks show it.
  ghost predicate LoopGoes(turns: seq<Turn>, ss: seq<State>, m: nat, t: nat, c: nat, i: nat, own: bool,
                           phase: Phase, i': nat, phase': Phase)
  {
    && m < |turns| && m + 1 < |ss| && turns[m].t == t
    && match phase
       case AtWant =>
         if i == c then i' == i + 1 && phase' == AtWant
         else i' == i && phase' == AtTest && Locks(turns, ss, m, t, i)
       case AtTest =>
         i' == i && Has(ss[m], t, i) && phase' == if Meets(turns, ss, m, i) then AtEdit else AtUnlock
       case AtEdit =>
         && i' == i && phase' == AtEdited && Has(ss[m], t, i) && Has(ss[m + 1], t, i)
         && HasView(ss[m + 1], t, if own then c else i)
       case AtEdited => i' == i && phase' == AtUnlock
       case AtUnlock => i' == i + 1 && phase' == AtWant && Has(ss[m], t, i) && !Has(ss[m + 1], t, i)
  }

  lemma LoopNext(turns: seq<Turn>, ss: seq<State>, lo: nat, m: nat, t: nat, c: nat, i: nat, own: bool,
                 phase: Phase, i': nat, phase': Phase)
    requires lo < m && LoopTrail(turns, ss, lo, m, t, c, i, own, phase)
    requires LoopGoes(turns, ss, m, t, c, i, own, phase, i', phase')
    ensures LoopTrail(turns, ss, lo, m + 1, t, c, i', own, phase')
  {
    match phase
    case AtWant =>
      if i == c {
        LoopSkips(turns, ss, lo, m, t, c, own);
      } else {
        LoopLocks(turns, ss, lo, m, t, c, i, own);
      }
    case AtTest => LoopLooks(turns, ss, lo, m, t, c, i, own);
    case AtEdit => LoopEdits(turns, ss, lo, m, t, c, i, own);
    case AtEdited => LoopEdited(turns, ss, lo, m, t, c, i, own);
    case AtUnlock => LoopUnlocks(turns, ss, lo, m, t, c, i, own);
  }

  lemma TellGoes(turns: seq<Turn>, ss: seq<State>, m: nat, t: nat)
    requires OwnTurn(turns, ss, m, t) && InTell(ss[m].threads[t])
    requires var pc := ss[m].threads[t]; pc.TellWant? ==> pc.i != MAX_USER
    ensures
      var pc, pc' := ss[m].threads[t], ss[m + 1].threads[t];
      && InTell(pc') && pc'.c == pc.c
      && (pc.TellWant? <==> PhaseOf(pc) == AtWant)
      && LoopGoes(turns, ss, m, t, pc.c, pc.i, false, PhaseOf(pc), pc'.i, PhaseOf(pc'))
  {
    var pc, pc' := ss[m].threads[t], ss[m + 1].threads[t];
    var c, i := pc.c, pc.i;
    if pc.TellWant? {
      assert pc' == if i == c then TellWant(c, i + 1) else TellTest(c, i);
    } else if pc.TellTest? {
      assert pc' == if Meets(turns, ss, m, i) then TellWantView(c, i) else TellUnlock(c, i);
    } else if pc.TellWantView? {
      assert pc' == TellUnlockView(c, i);
    } else if pc.TellUnlockView? {
      assert pc' == TellUnlock(c, i);
    } else {
      assert pc' == TellWant(c, i + 1);
    }
  }

  lemma TellOwn(turns: seq<Turn>, ss: seq<State>, a: nat, m: nat, t: nat, c: nat, w: LoginMemo)
    requires OwnTurn(turns, ss, m, t) && c < ALL && TellTrail(turns, ss, a, m, t, c, w)
    requires var pc := ss[m].threads[t]; pc.TellWant? ==> pc.i != MAX_USER
    ensures TellTrail(turns, ss, a, m + 1, t, c, w)
  {
    var pc, pc' := ss[m].threads[t], ss[m + 1].threads[t];
    TellGoes(turns, ss, m, t);
    LoopNext(turns, ss, w.r, m, t, c, pc.i, false, PhaseOf(pc), pc'.i, PhaseOf(pc'));
  }

  lemma TellEnds(turns: seq<Turn>, ss: seq<State>, a: nat, m: nat, t: nat, c: nat, w: LoginMemo)
    requires OwnTurn(turns, ss, m, t) && c < ALL && TellTrail(turns, ss, a, m, t, c, w)
    requires ss[m].threads[t] == TellWant(c, MAX_USER)
    ensures ShowTrail(turns, ss, a, m + 1, t, c, w.(b := m))
  {
    assert ss[m + 1].threads[t] == ShowWant(c, 0);
  }

  lemma ShowGoes(turns: seq<Turn>, ss: seq<State>, m: nat, t: nat)
    requires OwnTurn(turns, ss, m, t) && InShow(ss[m].threads[t])
    requires var pc := ss[m].threads[t]; pc.ShowWant? ==> pc.i != ALL
    ensures
      var pc, pc' := ss[m].threads[t], ss[m + 1].threads[t];
      && InShow(pc') && pc'.c == pc.c
      && (pc.ShowWant? <==> PhaseOf(pc) == AtWant)
      && LoopGoes(turns, ss, m, t, pc.c, pc.i, true, PhaseOf(pc), pc'.i, PhaseOf(pc'))
  {
    var pc, pc' := ss[m].threads[t], ss[m + 1].threads[t];
    var c, i := pc.c, pc.i;
    if pc.ShowWant? {
      assert pc' == if i == c then ShowWant(c, i + 1) else ShowTest(c, i);
    } else if pc.ShowTest? {
      assert pc' == if Meets(turns, ss, m, i) then ShowWantView(c, i) else ShowUnlock(c, i);
    } else if pc.ShowWantView? {
      assert pc' == ShowUnlockView(c, i);
    } else if pc.ShowUnlockView? {
      assert pc' == ShowUnlock(c, i);
    } else {
      assert pc' == ShowWant(c, i + 1);
    }
  }

  lemma ShowOwn(turns: seq<Turn>, ss: seq<State>, a: nat, m: nat, t: nat, c: nat, w: LoginMemo)
    requires OwnTurn(turns, ss, m, t) && c < ALL && ShowTrail(turns, ss, a, m, t, c, w)
    requires var pc := ss[m].threads[t]; pc.ShowWant? ==> pc.i != ALL
    ensures ShowTrail(turns, ss, a, m + 1, t, c, w)
  {
    var pc, pc' := ss[m].threads[t], ss[m + 1].threads[t];
    ShowGoes(turns, ss, m, t);
    LoopNext(turns, ss, w.b, m, t, c, pc.i, true, PhaseOf(pc), pc'.i, PhaseOf(pc'));
  }

  lemma ShowEnds(turns: seq<Turn>, ss: seq<State>, a: nat, m: nat, t: nat, c: nat, w: LoginMemo)
    requires OwnTurn(turns, ss, m, t) && c < ALL && ShowTrail(turns, ss, a, m, t, c, w)
    requires ss[m].threads[t] == ShowWant(c, ALL)
    ensures ss[m + 1].threads[t].Idle? && LoggedIn(turns, ss, a, m + 1, t, c)
  {
    assert ss[m + 1].threads[t] == Idle;
    AllToldLater(turns, ss, w.b, m, m + 1, t, c, ALL, true);
    assert GoneRound(turns, ss, w.r, w.b, m + 1, t, c);
  }

  lemma AgainNext(turns: seq<Turn>, ss: seq<State>, a: nat, m: nat, t: nat, c: nat, w: LoginMemo) returns (w': LoginMemo)
    requires BusyTurn(turns, ss, m, t) && c < ALL && AgainTrail(turns, ss, a, m, t, c, w)
    ensures LoginTrail(turns, ss, a, m + 1, t, c, w')
  {
    var drop := DropNext(turns, ss, w.r, m, t, c, w.drop);
    w' := w.(drop := drop);
    if ss[m + 1].threads[t].Idle? {
      assert Disconnected(turns, ss, w.r, m + 1, t, c);
      assert LoggedIn(turns, ss, a, m + 1, t, c);
    } else {
      assert AgainTrail(turns, ss, a, m + 1, t, c, w');
    }
  }

  lemma HeadNext(turns: seq<Turn>, ss: seq<State>, a: nat, m: nat, t: nat, c: nat, w: LoginMemo) returns (w': LoginMemo)
    requires BusyTurn(turns, ss, m, t) && c < ALL && HeadTrail(turns, ss, a, m, t, c, w)
    ensures LoginTrail(turns, ss, a, m + 1, t, c, w')
  {
    var pc := ss[m].threads[t];
    w' := w;
    if turns[m].t != t {
      HeadOther(turns, ss, a, m, t, c, w);
    } else if pc.LoginWant? {
      LoginWantOwn(turns, ss, a, m, t, c, w);
      w' := w.(p := m);
    } else if pc.LoginTest? {
      LoginTestOwn(turns, ss, a, m, t, c, w);
      w' := w.(q := m);
    } else if pc.LoginLeave? {
      LoginLeaveOwn(turns, ss, a, m, t, c, w);
      w' := w.(r := m);
    } else if pc.LoginEnter? {
      LoginEnterOwn(turns, ss, a, m, t, c, w);
      w' := w.(r := m);
    } else {
      LoginUnlockOwn(turns, ss, a, m, t, c, w);
    }
  }

  lemma LoopsNext(turns: seq<Turn>, ss: seq<State>, a: nat, m: nat, t: nat, c: nat, w: LoginMemo) returns (w': LoginMemo)
    requires BusyTurn(turns, ss, m, t) && c < ALL
    requires TellTrail(turns, ss, a, m, t, c, w) || ShowTrail(turns, ss, a, m, t, c, w)
    ensures LoginTrail(turns, ss, a, m + 1, t, c, w')
  {
    var pc := ss[m].threads[t];
    w' := w;
    if InTell(pc) {
      if turns[m].t != t {
        TellOther(turns, ss, a, m, t, c, w);
      } else if pc == TellWant(c, MAX_USER) {
        TellEnds(turns, ss, a, m, t, c, w);
        w' := w.(b := m);
      } else {
        TellOwn(turns, ss, a, m, t, c, w);
      }
    } else {
      if turns[m].t != t {
        ShowOther(turns, ss, a, m, t, c, w);
      } else if pc == ShowWant(c, ALL) {
        ShowEnds(turns, ss, a, m, t, c, w);
      } else {
        ShowOwn(turns, ss, a, m, t, c, w);
      }
    }
  }

  lemma LoginNext(turns: seq<Turn>, ss: seq<State>, a: nat, m: nat, t: nat, c: nat, w: LoginMemo) returns (w': LoginMemo)
    requires BusyTurn(turns, ss, m, t) && c < ALL && LoginTrail(turns, ss, a, m, t, c, w)
    ensures LoginTrail(turns, ss, a, m + 1, t, c, w')
  {
    if HeadTrail(turns, ss, a, m, t, c, w) {
      w' := HeadNext(turns, ss, a, m, t, c, w);
    } else if AgainTrail(turns, ss, a, m, t, c, w) {
      w' := AgainNext(turns, ss, a, m, t, c, w);
    } else {
      w' := LoopsNext(turns, ss, a, m, t, c, w);
    }
  }

  // The trail goes on as long as the thread is busy.
  ghost predicate Trailed(turns: seq<Turn>, ss: seq<State>, a: nat, m: nat, t: nat, c: nat) {
    m <= |turns| < |ss| && t < |ss[m].threads| && exists w: LoginMemo :: LoginTrail(turns, ss, a, m, t, c, w)
  }

  lemma TrailedOn(turns: seq<Turn>, ss: seq<State>, a: nat, m: nat, t: nat, c: nat)
    requires BusyTurn(turns, ss, m, t) && c < ALL && Trailed(turns, ss, a, m, t, c)
    ensures Trailed(turns, ss, a, m + 1, t, c)
  {
    var w: LoginMemo :| LoginTrail(turns, ss, a, m, t, c, w);
    var w' := LoginNext(turns, ss, a, m, t, c, w);
  }

  lemma TrailBegins(turns: seq<Turn>, ss: seq<State>, a: nat, t: nat, c: nat)
    requires a < |turns| < |ss| && t < |ss[a + 1].threads| && ss[a + 1].threads[t] == LoginWant(c)
    requires LastOwn(turns, a, a + 1, t) && SetsNothing(turns, ss, a, a + 1, t)
    ensures Trailed(turns, ss, a, a + 1, t, c)
  {
    var w := LoginMemo(0, 0, 0, 0, Memo(0, 0, 0));
    assert HeadTrail(turns, ss, a, a + 1, t, c, w);
    assert LoginTrail(turns, ss, a, a + 1, t, c, w);
  }

  lemma TrailEnds(turns: seq<Turn>, ss: seq<State>, a: nat, e: nat, t: nat, c: nat)
    requires Trailed(turns, ss, a, e, t, c) && ss[e].threads[t].Idle?
    ensures LoggedIn(turns, ss, a, e, t, c)
  {
  }

  // Turn k leaves the trail unbroken.
  ghost predicate KeepsTrail(turns: seq<Turn>, ss: seq<State>, a: nat, k: nat, t: nat, c: nat) {
    Trailed(turns, ss, a, k, t, c) ==> Trailed(turns, ss, a, k + 1, t, c)
  }

  lemma BusyKeepsTrail(turns: seq<Turn>, ss: seq<State>, a: nat, k: nat, t: nat, c: nat)
    requires BusyTurn(turns, ss, k, t) && c < ALL
    ensures KeepsTrail(turns, ss, a, k, t, c)
  {
    if Trailed(turns, ss, a, k, t, c) {
      TrailedOn(turns, ss, a, k, t, c);
    }
  }

  lemma {:induction false} LoginToEnd(turns: seq<Turn>, ss: seq<State>, a: nat, m: nat, e: nat, t: nat, c: nat)
    requires m <= e && Trailed(turns, ss, a, m, t, c)
    requires forall k: nat :: m <= k < e ==> KeepsTrail(turns, ss, a, k, t, c)
    ensures Trailed(turns, ss, a, e, t, c)
    decreases e - m
  {
    if m < e {
      assert KeepsTrail(turns, ss, a, m, t, c);
      LoginToEnd(turns, ss, a, m + 1, e, t, c);
    }
  }

  /** Every login. */
  lemma LoginResult(threads: nat, turns: seq<Turn>, ss: seq<State>, a: nat, e: nat, t: nat, c: nat)
    requires Interleaving(threads, turns, ss) && Operation(turns, ss, a, e, t, StartLogin(c))
    ensures LoggedIn(turns, ss, a, e, t, c)
  {
    TraceUpTo(threads, turns, ss, |turns|);
    Begun(threads, turns, ss, a, e, t, StartLogin(c));
    OperationIsBusy(threads, turns, ss, a, e, t, StartLogin(c));
    TrailBegins(turns, ss, a, t, c);
    forall k: nat | a + 1 <= k < e ensures KeepsTrail(turns, ss, a, k, t, c) {
      BusyKeepsTrail(turns, ss, a, k, t, c);
    }
    LoginToEnd(turns, ss, a, a + 1, e, t, c);
    TrailEnds(turns, ss, a, e, t, c);
  }
}
