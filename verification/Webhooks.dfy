/** The queue of webhook events that wait to be sent, with its two compaction loops. */
module Webhooks {
  import Store

  /** The address and the credentials are the same for all events. */
  datatype Event = Event(name: string, doc: Store.DocId, sendBy: int)

  const IDLE_SESSION := "idle-session"

  const DAY: int := 24 * 60 * 60
  const IDLE_DELAY: int := 10

  /** The elements that satisfy p, in their order. */
  function Filter<T>(xs: seq<T>, p: T -> bool): seq<T>
    decreases |xs|
  {
    if xs == [] then []
    else
      var last := xs[|xs| - 1];
      if p(last) then Filter(xs[..|xs| - 1], p) + [last] else Filter(xs[..|xs| - 1], p)
  }

  /** The elements that do not, in their order. */
  function Reject<T>(xs: seq<T>, p: T -> bool): seq<T>
    decreases |xs|
  {
    if xs == [] then []
    else
      var last := xs[|xs| - 1];
      if p(last) then Reject(xs[..|xs| - 1], p) else Reject(xs[..|xs| - 1], p) + [last]
  }

  lemma {:induction false} FilterMembers<T>(xs: seq<T>, p: T -> bool)
    ensures forall x :: x in Filter(xs, p) <==> x in xs && p(x)
    ensures forall x :: x in Reject(xs, p) <==> x in xs && !p(x)
    decreases |xs|
  {
    if xs != [] {
      FilterMembers(xs[..|xs| - 1], p);
      assert xs == xs[..|xs| - 1] + [xs[|xs| - 1]];
    }
  }

  lemma {:induction false} FilterSnoc<T>(xs: seq<T>, i: nat, p: T -> bool)
    requires i < |xs|
    ensures Filter(xs[..i + 1], p) == if p(xs[i]) then Filter(xs[..i], p) + [xs[i]] else Filter(xs[..i], p)
    ensures Reject(xs[..i + 1], p) == if p(xs[i]) then Reject(xs[..i], p) else Reject(xs[..i], p) + [xs[i]]
  {
    assert xs[..i + 1][..i] == xs[..i];
  }

  /** Nothing is lost and nothing is doubled: the two lists together are the list. */
  lemma {:induction false} FilterPartitions<T>(xs: seq<T>, p: T -> bool)
    ensures multiset(Filter(xs, p)) + multiset(Reject(xs, p)) == multiset(xs)
    decreases |xs|
  {
    if xs != [] {
      var front, last := xs[..|xs| - 1], xs[|xs| - 1];
      FilterPartitions(front, p);
      assert xs == front + [last] && multiset(xs) == multiset(front) + multiset{last};
    }
  }

  /** Of any two rejected elements the one that was first stays first. */
  lemma {:induction false} RejectIsStable<T>(xs: seq<T>, p: T -> bool, i: nat, j: nat)
    requires i < j < |xs| && !p(xs[i]) && !p(xs[j])
    ensures exists a, b :: 0 <= a < b < |Reject(xs, p)| && Reject(xs, p)[a] == xs[i] && Reject(xs, p)[b] == xs[j]
    decreases |xs|
  {
    var front := xs[..|xs| - 1];
    if j < |xs| - 1 {
      RejectIsStable(front, p, i, j);
      var a, b :| 0 <= a < b < |Reject(front, p)| && Reject(front, p)[a] == xs[i] && Reject(front, p)[b] == xs[j];
      assert Reject(xs, p)[a] == xs[i] && Reject(xs, p)[b] == xs[j];
    } else {
      FilterMembers(front, p);
      assert front[i] == xs[i] && xs[i] in front;
      var a :| 0 <= a < |Reject(front, p)| && Reject(front, p)[a] == xs[i];
      assert Reject(xs, p)[a] == xs[i] && Reject(xs, p)[|Reject(front, p)|] == xs[j];
    }
  }

  function DueBefore(now: int): Event -> bool { (e: Event) => e.sendBy < now }

  function Due(events: seq<Event>, now: int): seq<Event> { Filter(events, DueBefore(now)) }

  function NotDue(events: seq<Event>, now: int): seq<Event> { Reject(events, DueBefore(now)) }

  lemma {:induction false} DueSnoc(events: seq<Event>, i: nat, now: int)
    requires i < |events|
    ensures Due(events[..i + 1], now) == if events[i].sendBy < now then Due(events[..i], now) + [events[i]] else Due(events[..i], now)
    ensures NotDue(events[..i + 1], now) ==
            if events[i].sendBy < now then NotDue(events[..i], now) else NotDue(events[..i], now) + [events[i]]
  {
    FilterSnoc(events, i, DueBefore(now));
  }

  /** When the timer has to look again. */
  function Wakeup(remaining: seq<Event>, now: int): int
    decreases |remaining|
  {
    if remaining == [] then now + DAY
    else
      var at, next := Wakeup(remaining[..|remaining| - 1], now), remaining[|remaining| - 1].sendBy;
      if next < at then next else at
  }

  /** That is the earliest of the remaining times, and at the latest a day from now. */
  lemma {:induction false} WakeupIsEarliest(remaining: seq<Event>, now: int)
    ensures var at := Wakeup(remaining, now);
            && at <= now + 86400
            && (forall e :: e in remaining ==> at <= e.sendBy)
            && (at == now + 86400 || exists e :: e in remaining && e.sendBy == at)
    decreases |remaining|
  {
    if remaining != [] {
      var front, last := remaining[..|remaining| - 1], remaining[|remaining| - 1];
      WakeupIsEarliest(front, now);
      assert remaining == front + [last];
      assert forall e :: e in remaining <==> e in front || e == last;
      assert last in remaining;
    }
  }

  /** Half way through a compaction: what is kept stands in front, what has not been looked at is as it was. */
  predicate Compacting(events: seq<Event>, was: seq<Event>, i: nat, kept: seq<Event>) {
    && |kept| <= i <= |was| == |events|
    && (forall k :: 0 <= k < |kept| ==> events[k] == kept[k])
    && (forall k :: i <= k < |was| ==> events[k] == was[k])
  }

  lemma {:induction false} CompactionStep(events: seq<Event>, was: seq<Event>, i: nat, kept: seq<Event>)
    requires Compacting(events, was, i, kept) && i < |was|
    ensures Compacting(events, was, i + 1, kept)
    ensures Compacting(events[|kept| := was[i]], was, i + 1, kept + [was[i]])
    ensures |kept| == i ==> events[|kept| := was[i]] == events
  {
  }

  class WebhookQueue {
    var events: seq<Event>

    constructor ()
      ensures events == []
    {
      events := [];
    }

    /** One round of the timer loop: the events sent, and the time to wake up at. */
    method TimerPass(now: int) returns (sent: seq<Event>, at: int)
      modifies this
      ensures sent == Due(old(events), now)
      ensures events == NotDue(old(events), now)
      ensures at == Wakeup(events, now)
    {
      ghost var was := events;
      ghost var kept: seq<Event> := [];
      var removed := 0;
      sent := [];
      at := now + DAY;
      assert was[..0] == [];
      for i := 0 to |events|
        invariant 0 <= removed <= i && |events| == |was| && |kept| == i - removed
        invariant Compacting(events, was, i, kept)
        invariant sent == Due(was[..i], now) && kept == NotDue(was[..i], now)
        invariant at == Wakeup(kept, now)
      {
        var item := events[i];
        CompactionStep(events, was, i, kept);
        DueSnoc(was, i, now);
        if item.sendBy < now {
          sent := sent + [item];
          removed := removed + 1;
          continue;
        } else if item.sendBy < at {
          at := item.sendBy;
        }
        WakeupSnoc(kept, item, now);
        kept := kept + [item];
        if removed > 0 {
          events := events[i - removed := events[i]];
        }
      }
      assert was[..|was|] == was;
      events := events[..|events| - removed];
      assert events == kept;
    }

    method RemoveIf(p: Event -> bool)
      modifies this
      ensures events == Reject(old(events), p)
    {
      ghost var was := events;
      ghost var kept: seq<Event> := [];
      var removed := 0;
      assert was[..0] == [];
      for i := 0 to |events|
        invariant 0 <= removed <= i && |events| == |was| && |kept| == i - removed
        invariant Compacting(events, was, i, kept)
        invariant kept == Reject(was[..i], p)
      {
        CompactionStep(events, was, i, kept);
        FilterSnoc(was, i, p);
        if p(events[i]) {
          removed := removed + 1;
        } else {
          kept := kept + [events[i]];
          if removed > 0 {
            events := events[i - removed := events[i]];
          }
        }
      }
      assert was[..|was|] == was;
      events := events[..|events| - removed];
      assert events == kept;
    }

    method Add(event: Event)
      modifies this
      ensures events == old(events) + [event]
    {
      events := events + [event];
    }
  }

  lemma {:induction false} WakeupSnoc(kept: seq<Event>, item: Event, now: int)
    ensures Wakeup(kept + [item], now) ==
            if item.sendBy < Wakeup(kept, now) then item.sendBy else Wakeup(kept, now)
  {
    assert (kept + [item])[..|kept|] == kept;
  }
}
