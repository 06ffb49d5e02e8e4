/** Versioned keys: what is still to be sent to one client, and what the client makes of it. */
module Keys {
  import opened Store

  /** The position of the first key with that name, or the length of the list. */
  function Find(keys: seq<Key>, name: Name): (i: nat)
    ensures i <= |keys|
    ensures i < |keys| ==> keys[i].name == name
    ensures forall j :: 0 <= j < i ==> keys[j].name != name
    decreases |keys|
  {
    if keys == [] then 0
    else if keys[0].name == name then 0
    else 1 + Find(keys[1..], name)
  }

  /** Queue an update: it replaces a queued update of the same name unless that one is newer. */
  function Coalesce(pending: seq<Key>, key: Key): seq<Key> {
    var i := Find(pending, key.name);
    if i == |pending| then pending + [key]
    else if key.version >= pending[i].version then pending[i := key]
    else pending
  }

  function CoalesceAll(pending: seq<Key>, batch: seq<Key>): seq<Key>
    decreases |batch|
  {
    if batch == [] then pending
    else Coalesce(CoalesceAll(pending, batch[..|batch| - 1]), batch[|batch| - 1])
  }

  predicate UniqueNames(keys: seq<Key>) {
    forall i, j :: 0 <= i < j < |keys| ==> keys[i].name != keys[j].name
  }

  // ----- The receiver -------------------------------------------------------------------

  type View = map<Name, Key>

  /** The higher version wins, and the later update wins a tie. */
  function See(view: View, key: Key): View {
    if key.name in view && key.version < view[key.name].version then view else view[key.name := key]
  }

  function SeeAll(view: View, keys: seq<Key>): View
    decreases |keys|
  {
    if keys == [] then view else See(SeeAll(view, keys[..|keys| - 1]), keys[|keys| - 1])
  }

  lemma {:induction false} SeeAllAppend(view: View, a: seq<Key>, b: seq<Key>)
    ensures SeeAll(view, a + b) == SeeAll(SeeAll(view, a), b)
    decreases |b|
  {
    if b == [] {
      assert a + b == a;
    } else {
      assert (a + b)[..|a + b| - 1] == a + b[..|b| - 1];
      SeeAllAppend(view, a, b[..|b| - 1]);
    }
  }

  lemma {:induction false} SeeAllLeavesOthers(view: View, keys: seq<Key>, name: Name)
    requires forall i :: 0 <= i < |keys| ==> keys[i].name != name
    ensures name in SeeAll(view, keys) <==> name in view
    ensures name in view ==> SeeAll(view, keys)[name] == view[name]
    decreases |keys|
  {
    if keys != [] {
      SeeAllLeavesOthers(view, keys[..|keys| - 1], name);
    }
  }

  /** Updates of different names commute. */
  lemma {:induction false} SeeLast(view: View, keys: seq<Key>, key: Key)
    requires forall i :: 0 <= i < |keys| ==> keys[i].name != key.name
    ensures SeeAll(See(view, key), keys) == See(SeeAll(view, keys), key)
    decreases |keys|
  {
    if keys != [] {
      var front, last := keys[..|keys| - 1], keys[|keys| - 1];
      SeeLast(view, front, key);
      SeeAllLeavesOthers(view, front, key.name);
      assert See(See(SeeAll(view, front), key), last) == See(See(SeeAll(view, front), last), key);
    }
  }

  /** A queued update can as well be seen last. */
  lemma {:induction false} SeeMoved(view: View, pending: seq<Key>, i: nat)
    requires UniqueNames(pending) && i < |pending|
    ensures SeeAll(view, pending) == See(SeeAll(view, pending[..i] + pending[i + 1..]), pending[i])
  {
    var before, key, after := pending[..i], pending[i], pending[i + 1..];
    assert pending == (before + [key]) + after;
    SeeAllAppend(view, before + [key], after);
    assert (before + [key])[..|before|] == before;
    SeeLast(SeeAll(view, before), after, key);
    SeeAllAppend(view, before, after);
  }

  lemma {:induction false} CoalesceKeepsUnique(pending: seq<Key>, key: Key)
    requires UniqueNames(pending)
    ensures UniqueNames(Coalesce(pending, key))
  {
  }

  /** Queueing an update has, in the end, the effect of sending it. */
  lemma {:induction false} CoalesceIsSee(view: View, pending: seq<Key>, key: Key)
    requires UniqueNames(pending)
    ensures SeeAll(view, Coalesce(pending, key)) == See(SeeAll(view, pending), key)
  {
    var i := Find(pending, key.name);
    if i == |pending| {
      assert (pending + [key])[..|pending|] == pending;
    } else {
      var rest := pending[..i] + pending[i + 1..];
      SeeMoved(view, pending, i);
      if key.version >= pending[i].version {
        var pending' := pending[i := key];
        assert pending'[..i] + pending'[i + 1..] == rest;
        CoalesceKeepsUnique(pending, key);
        SeeMoved(view, pending', i);
      }
    }
  }

  lemma {:induction false} CoalesceAllIsSeeAll(view: View, pending: seq<Key>, batch: seq<Key>)
    requires UniqueNames(pending)
    ensures UniqueNames(CoalesceAll(pending, batch))
    ensures SeeAll(view, CoalesceAll(pending, batch)) == SeeAll(SeeAll(view, pending), batch)
    decreases |batch|
  {
    if batch != [] {
      var front := batch[..|batch| - 1];
      CoalesceAllIsSeeAll(view, pending, front);
      CoalesceKeepsUnique(CoalesceAll(pending, front), batch[|batch| - 1]);
      CoalesceIsSee(view, CoalesceAll(pending, front), batch[|batch| - 1]);
    }
  }

  // ----- Any interleaving of notifications and sends ------------------------------------

  datatype Event = Notify(batch: seq<Key>) | Drain

  /** What has been sent, and what is queued. */
  datatype Outbox = Outbox(sent: seq<Key>, pending: seq<Key>)

  function Handle(o: Outbox, e: Event): Outbox {
    match e
    case Notify(batch) => o.(pending := CoalesceAll(o.pending, batch))
    case Drain => Outbox(o.sent + o.pending, [])
  }

  function HandleAll(o: Outbox, events: seq<Event>): Outbox
    decreases |events|
  {
    if events == [] then o else HandleAll(Handle(o, events[0]), events[1..])
  }

  /** Every update of every notification, one by one. */
  function Updates(events: seq<Event>): seq<Key>
    decreases |events|
  {
    if events == [] then []
    else (if events[0].Notify? then events[0].batch else []) + Updates(events[1..])
  }

  function Seen(view: View, o: Outbox): View { SeeAll(SeeAll(view, o.sent), o.pending) }

  /**
   Coalescing is invisible: whenever the queue is drained in between, the receiver ends with
   what sending every single update would have given it, and no name is ever queued twice.
   */
  lemma {:induction false} CoalescingIsInvisible(view: View, o: Outbox, events: seq<Event>)
    requires UniqueNames(o.pending)
    ensures UniqueNames(HandleAll(o, events).pending)
    ensures Seen(view, HandleAll(o, events)) == SeeAll(Seen(view, o), Updates(events))
    decreases |events|
  {
    if events != [] {
      var o' := Handle(o, events[0]);
      match events[0] {
        case Notify(batch) =>
          CoalesceAllIsSeeAll(SeeAll(view, o.sent), o.pending, batch);
          SeeAllAppend(Seen(view, o), batch, Updates(events[1..]));
        case Drain =>
          SeeAllAppend(view, o.sent, o.pending);
          assert [] + Updates(events[1..]) == Updates(events[1..]);
      }
      CoalescingIsInvisible(view, o', events[1..]);
    }
  }
}
