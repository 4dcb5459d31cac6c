/** The timer thread: a priority queue whose reversed order brings the earliest event to
    the top, drained for as long as the top is due. */
module TimerQueue {

  // The operation an event carries is passed through unread.
  datatype Timeline = Timeline(objectId: nat, op: nat, actTime: int, targetId: nat)

  // Timeline::operator<: the later event is the smaller one.
  predicate Less(a: Timeline, b: Timeline) {
    a.actTime > b.actTime
  }

  // What a priority queue offers as its top: an element that is not less than any other.
  predicate IsTop(queue: multiset<Timeline>, e: Timeline) {
    e in queue && forall x <- queue :: !Less(e, x)
  }

  // One element more: it is on top itself, or the old top stays there.
  lemma TopOfMore(others: multiset<Timeline>, top: Timeline, e: Timeline)
    requires IsTop(others, top)
    ensures IsTop(others + multiset{e}, if Less(top, e) then e else top)
  {
  }

  lemma {:induction false} TopExists(queue: multiset<Timeline>)
    requires queue != multiset{}
    ensures exists e :: IsTop(queue, e)
    decreases |queue|
  {
    var e :| e in queue;
    var others := queue - multiset{e};
    assert queue == others + multiset{e};
    if others == multiset{} {
      assert queue == multiset{e};
      assert IsTop(queue, e);
    } else {
      TopExists(others);
      var top :| IsTop(others, top);
      TopOfMore(others, top, e);
    }
  }

  ghost predicate Monotone(clock: nat -> int) {
    forall i: nat, j: nat :: i <= j ==> clock(i) <= clock(j)
  }

  // Posted in order of time, each before the reading of the clock it was held against.
  ghost predicate InOrder(events: seq<Timeline>, clock: nat -> int) {
    && (forall i, j :: 0 <= i < j < |events| ==> events[i].actTime <= events[j].actTime)
    && (forall i :: 0 <= i < |events| ==> events[i].actTime < clock(i))
  }

  /** What one drain of `queue` may do, the clock being read once for each event looked at:
      post `events` in this order and leave `rest`. */
  ghost predicate Drained(queue: multiset<Timeline>, clock: nat -> int,
                          events: seq<Timeline>, rest: multiset<Timeline>) {
    && multiset(events) + rest == queue
    && InOrder(events, clock)
    && (forall e <- rest :: clock(|events|) <= e.actTime)
  }

  // Part of the way through a drain: what is left is no earlier than what was posted.
  ghost predicate Draining(queue: multiset<Timeline>, clock: nat -> int,
                          events: seq<Timeline>, rest: multiset<Timeline>) {
    && multiset(events) + rest == queue
    && InOrder(events, clock)
    && (forall i, e :: 0 <= i < |events| && e in rest ==> events[i].actTime <= e.actTime)
  }

  lemma PostTop(queue: multiset<Timeline>, clock: nat -> int,
                          events: seq<Timeline>, rest: multiset<Timeline>, top: Timeline)
    requires Draining(queue, clock, events, rest) && IsTop(rest, top) && top.actTime < clock(|events|)
    ensures Draining(queue, clock, events + [top], rest - multiset{top})
  {
  }

  class Timers {
    var queue: multiset<Timeline>

    // The body of the timer loop between taking and releasing the mutex.
    method Drain(clock: nat -> int) returns (posted: seq<Timeline>)
      requires Monotone(clock)
      modifies this
      ensures Drained(old(queue), clock, posted, queue)
    {
      posted := [];
      var readings := 0;
      while |queue| > 0
        invariant readings == |posted| && Draining(old(queue), clock, posted, queue)
        decreases |queue|
      {
        TopExists(queue);
        var top :| IsTop(queue, top);
        var now := clock(readings);
        if top.actTime < now {
          PostTop(old(queue), clock, posted, queue, top);
          posted := posted + [top];
          queue := queue - multiset{top};
          readings := readings + 1;
        } else {
          TopNotDue(queue, top, now);
          break;
        }
      }
    }
  }

  lemma TopNotDue(queue: multiset<Timeline>, top: Timeline, now: int)
    requires IsTop(queue, top) && now <= top.actTime
    ensures forall e <- queue :: now <= e.actTime
  {
  }

  /** Whatever ties are broken and however late the clock is read: every event due at the
      first reading is posted, none that is not due at the last one is, nothing is posted
      after an event that stays behind, and no event is lost or made up. */
  lemma DrainedIsPunctual(queue: multiset<Timeline>, clock: nat -> int, events: seq<Timeline>,
                          rest: multiset<Timeline>, e: Timeline)
    requires Monotone(clock) && Drained(queue, clock, events, rest)
    ensures e.actTime < clock(0) ==> multiset(events)[e] == queue[e] && e !in rest
    ensures clock(|events|) <= e.actTime ==> rest[e] == queue[e] && e !in events
    ensures e in rest ==> forall i :: 0 <= i < |events| ==> events[i].actTime < e.actTime
  {
  }

  /** With a clock that stands still, a drain posts exactly the events that are due. */
  lemma StillClockPostsTheDue(queue: multiset<Timeline>, clock: nat -> int, events: seq<Timeline>,
                              rest: multiset<Timeline>, e: Timeline)
    requires Monotone(clock) && (forall i: nat :: clock(i) == clock(0))
    requires Drained(queue, clock, events, rest)
    ensures multiset(events)[e] == if e.actTime < clock(0) then queue[e] else 0
  {
  }
}
