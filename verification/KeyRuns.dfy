/** Client keys over whole runs of one document's session. */
module KeyRuns {
  import opened Base
  import opened Store
  import opened Keys
  import opened Sessions

  /** What was sent to a client, what is queued for it, and the copy of the keys it still has to be notified of. */
  datatype Member = Member(sent: seq<Key>, pending: seq<Key>, holding: Option<seq<Key>>, notified: bool)

  datatype Change = Stored(oldVersion: int, key: Key) | Removed(names: set<Name>)

  /**
   The keys and the clients of the session.  For the statements only: the highest version ever
   announced for a name, and the changes made to the keys.
   */
  datatype World = World(keys: seq<ClientKey>, members: map<ClientId, Member>, high: map<Name, int>, log: seq<Change>)

  /**
   A joining client is registered first, has the hub copy the keys for it next, and is notified of
   the copy last; anything may happen in between.
   */
  datatype Step =
    | Join(id: ClientId)
    | Copy(id: ClientId)
    | NotifyCopy(id: ClientId)
    | Set(id: ClientId, oldVersion: int, key: Key)
    | Drain(id: ClientId)
    | Leave(id: ClientId)

  const START := World([], map[], map[], [])

  predicate Enabled(w: World, step: Step) {
    match step
    case Join(id) => id !in w.members
    case Copy(id) => id in w.members && !w.members[id].notified && w.members[id].holding.None?
    case NotifyCopy(id) => id in w.members && w.members[id].holding.Some?
    case Set(id, _, _) => id in w.members && w.members[id].notified
    case Drain(id) => id in w.members
    case Leave(id) => id in w.members
  }

  function KeysOf(keys: seq<ClientKey>): (r: seq<Key>)
    ensures |r| == |keys| && forall i :: 0 <= i < |r| ==> r[i] == keys[i].key
  {
    seq(|keys|, i requires 0 <= i < |keys| => keys[i].key)
  }

  function Notify(m: Member, batch: seq<Key>): Member {
    m.(pending := CoalesceAll(m.pending, batch))
  }

  function NotifyOthers(members: map<ClientId, Member>, source: ClientId, batch: seq<Key>): map<ClientId, Member> {
    map id | id in members :: if id == source then members[id] else Notify(members[id], batch)
  }

  function NamesOwned(keys: seq<ClientKey>, owner: ClientId): set<Name> {
    set k | k in keys && k.owner == owner :: k.key.name
  }

  function RaiseAll(high: map<Name, int>, batch: seq<Key>): map<Name, int>
    decreases |batch|
  {
    if batch == [] then high
    else RaiseAll(high, batch[..|batch| - 1])[batch[|batch| - 1].name := batch[|batch| - 1].version]
  }

  function ApplySet(w: World, id: ClientId, oldVersion: int, key: Key): World {
    var (keys, ok) := Sessions.SetKey(w.keys, oldVersion, ClientKey(key, id));
    if ok then
      World(keys, NotifyOthers(w.members, id, [key]), RaiseAll(w.high, [key]), w.log + [Stored(oldVersion, key)])
    else w
  }

  function ApplyLeave(w: World, id: ClientId): World {
    var gone := Tombstones(w.keys, id);
    World(OthersKeys(w.keys, id), NotifyOthers(w.members, id, gone) - {id}, RaiseAll(w.high, gone),
          w.log + [Removed(NamesOwned(w.keys, id))])
  }

  function Apply(w: World, step: Step): World
    requires Enabled(w, step)
  {
    match step
    case Join(id) => w.(members := w.members[id := Member([], [], None, false)])
    case Copy(id) => w.(members := w.members[id := w.members[id].(holding := Some(KeysOf(w.keys)))])
    case NotifyCopy(id) =>
      var m := w.members[id];
      w.(members := w.members[id := Notify(m, m.holding.value).(holding := None, notified := true)])
    case Set(id, oldVersion, key) => ApplySet(w, id, oldVersion, key)
    case Drain(id) =>
      var m := w.members[id];
      w.(members := w.members[id := m.(sent := m.sent + m.pending, pending := [])])
    case Leave(id) => ApplyLeave(w, id)
  }

  ghost predicate ValidRun(w: World, steps: seq<Step>)
    decreases |steps|
  {
    steps == [] || (Enabled(w, steps[0]) && ValidRun(Apply(w, steps[0]), steps[1..]))
  }

  ghost function Run(w: World, steps: seq<Step>): World
    requires ValidRun(w, steps)
    decreases |steps|
  {
    if steps == [] then w else Run(Apply(w, steps[0]), steps[1..])
  }

  // ----- No update is lost --------------------------------------------------------------

  /** The changes stored under a name since the last time it was removed. */
  function Chain(log: seq<Change>, name: Name): seq<Change>
    decreases |log|
  {
    if log == [] then []
    else
      var front, last := log[..|log| - 1], log[|log| - 1];
      match last
      case Stored(_, key) => if key.name == name then Chain(front, name) + [last] else Chain(front, name)
      case Removed(names) => if name in names then [] else Chain(front, name)
  }

  /** Every change was made to what the one before it had left. */
  predicate Linked(chain: seq<Change>) {
    && (forall i :: 0 <= i < |chain| ==> chain[i].Stored?)
    && (chain != [] ==> chain[0].oldVersion == 0)
    && (forall i :: 0 < i < |chain| ==> chain[i].oldVersion == chain[i - 1].key.version)
  }

  ghost predicate ChainInv(keys: seq<ClientKey>, log: seq<Change>, name: Name) {
    var chain, i := Chain(log, name), FindKey(keys, name);
    && Linked(chain)
    && (chain == [] <==> i == |keys|)
    && (i < |keys| ==> chain[|chain| - 1].key == keys[i].key)
  }

  ghost predicate Chained(w: World) {
    UniqueKeyNames(w.keys) && forall name :: ChainInv(w.keys, w.log, name)
  }

  lemma {:induction false} FindUnique(keys: seq<ClientKey>, k: ClientKey)
    requires UniqueKeyNames(keys) && k in keys
    ensures FindKey(keys, k.key.name) < |keys| && keys[FindKey(keys, k.key.name)] == k
  {
    var j :| 0 <= j < |keys| && keys[j] == k;
  }

  /** Another name is found where it was, or not found, as before. */
  lemma {:induction false} SetFindsOthers(keys: seq<ClientKey>, oldVersion: int, newKey: ClientKey, name: Name)
    requires UniqueKeyNames(keys) && name != newKey.key.name && Sessions.SetKey(keys, oldVersion, newKey).1
    ensures var keys' := Sessions.SetKey(keys, oldVersion, newKey).0; var i, j := FindKey(keys, name), FindKey(keys', name);
            if i < |keys| then j < |keys'| && keys'[j] == keys[i] else j == |keys'|
  {
    SetKeyMeetsContract(keys, oldVersion, newKey);
    KeyTableFinds(keys, name);
    KeyTableFinds(Sessions.SetKey(keys, oldVersion, newKey).0, name);
  }

  lemma {:induction false} SetFindsNew(keys: seq<ClientKey>, oldVersion: int, newKey: ClientKey)
    requires UniqueKeyNames(keys) && Sessions.SetKey(keys, oldVersion, newKey).1
    ensures var keys' := Sessions.SetKey(keys, oldVersion, newKey).0; var j := FindKey(keys', newKey.key.name);
            UniqueKeyNames(keys') && newKey in keys' && j < |keys'| && keys'[j] == newKey
  {
    var keys' := Sessions.SetKey(keys, oldVersion, newKey).0;
    SetKeyMeetsContract(keys, oldVersion, newKey);
    assert keys'[FindKey(keys, newKey.key.name)] == newKey;
    FindUnique(keys', newKey);
  }

  lemma {:induction false} SetKeepsChain(w: World, id: ClientId, oldVersion: int, key: Key)
    requires Chained(w)
    ensures Chained(ApplySet(w, id, oldVersion, key))
  {
    var w', k' := ApplySet(w, id, oldVersion, key), ClientKey(key, id);
    if Sessions.SetKey(w.keys, oldVersion, k').1 {
      SetFindsNew(w.keys, oldVersion, k');
      assert w'.log[..|w.log|] == w.log;
      forall name ensures ChainInv(w'.keys, w'.log, name) {
        assert ChainInv(w.keys, w.log, name);
        if name != key.name {
          SetFindsOthers(w.keys, oldVersion, k', name);
        }
      }
    }
  }

  lemma {:induction false} LeaveKeepsChain(w: World, id: ClientId)
    requires Chained(w)
    ensures Chained(ApplyLeave(w, id))
  {
    var w' := ApplyLeave(w, id);
    OthersKeysAreUnique(w.keys, id);
    assert w'.log[..|w.log|] == w.log;
    forall name ensures ChainInv(w'.keys, w'.log, name) {
      assert ChainInv(w.keys, w.log, name);
      var i, j := FindKey(w.keys, name), FindKey(w'.keys, name);
      if i < |w.keys| {
        if w.keys[i].owner == id {
          assert name in NamesOwned(w.keys, id);
        } else {
          assert w.keys[i] in w'.keys;
          FindUnique(w'.keys, w.keys[i]);
        }
      }
      if j < |w'.keys| {
        assert w'.keys[j] in w'.keys;
        FindUnique(w.keys, w'.keys[j]);
      }
      if name in NamesOwned(w.keys, id) {
        var k :| k in w.keys && k.owner == id && k.key.name == name;
        FindUnique(w.keys, k);
      }
    }
  }

  lemma {:induction false} StepKeepsChain(w: World, step: Step)
    requires Chained(w) && Enabled(w, step)
    ensures Chained(Apply(w, step))
  {
    if step.Set? {
      SetKeepsChain(w, step.id, step.oldVersion, step.key);
    } else if step.Leave? {
      LeaveKeepsChain(w, step.id);
    }
  }

  lemma {:induction false} RunKeepsChain(w: World, steps: seq<Step>)
    requires Chained(w) && ValidRun(w, steps)
    ensures Chained(Run(w, steps))
    decreases |steps|
  {
    if steps != [] {
      StepKeepsChain(w, steps[0]);
      RunKeepsChain(Apply(w, steps[0]), steps[1..]);
    }
  }

  /**
   Over any run, as long as a key stays in the session the accepted calls for its name form a
   chain from version 0 to the version the key has: nobody overwrites a version it did not name.
   */
  lemma {:induction false} NoLostUpdates(steps: seq<Step>, name: Name)
    requires ValidRun(START, steps)
    ensures var w := Run(START, steps); var chain := Chain(w.log, name);
            && UniqueKeyNames(w.keys)
            && Linked(chain)
            && (chain == [] <==> forall k :: k in w.keys ==> k.key.name != name)
            && (forall k :: k in w.keys && k.key.name == name ==> chain[|chain| - 1].key == k.key)
  {
    RunKeepsChain(START, steps);
    var w := Run(START, steps);
    assert ChainInv(w.keys, w.log, name);
    forall k | k in w.keys && k.key.name == name ensures Chain(w.log, name) != [] && Chain(w.log, name)[|Chain(w.log, name)| - 1].key == k.key {
      FindUnique(w.keys, k);
    }
    var i := FindKey(w.keys, name);
    assert i < |w.keys| ==> w.keys[i] in w.keys;
  }

  // ----- Every client learns the keys ---------------------------------------------------

  function Held(m: Member): seq<Key> { if m.holding.Some? then m.holding.value else [] }

  /** What a client makes of everything sent and queued. */
  function Seen(m: Member): View { SeeAll(SeeAll(map[], m.sent), m.pending) }

  /** What it will make of that and of the copy it is to be notified of. */
  function Knows(m: Member): View { SeeAll(Seen(m), Held(m)) }

  /** A new version is newer than what it replaces, and a new key no older than an announced removal. */
  predicate Disciplined(w: World, step: Step) {
    step.Set? ==>
      var i := FindKey(w.keys, step.key.name);
      if i < |w.keys| then step.key.version > step.oldVersion
      else step.key.name in w.high ==> step.key.version >= w.high[step.key.name]
  }

  ghost predicate DisciplinedRun(w: World, steps: seq<Step>)
    requires ValidRun(w, steps)
    decreases |steps|
  {
    steps == [] || (Disciplined(w, steps[0]) && DisciplinedRun(Apply(w, steps[0]), steps[1..]))
  }

  predicate Named(keys: seq<ClientKey>, name: Name) { exists k :: k in keys && k.key.name == name }

  lemma {:induction false} FoundIsNamed(keys: seq<ClientKey>, name: Name)
    ensures FindKey(keys, name) < |keys| <==> Named(keys, name)
  {
    var i := FindKey(keys, name);
    if i < |keys| {
      assert keys[i] in keys;
    }
  }

  ghost predicate KeysInv(w: World) {
    UniqueKeyNames(w.keys) && forall k :: k in w.keys ==> k.key.name in w.high && w.high[k.key.name] == k.key.version
  }

  ghost predicate HeldInv(w: World, held: seq<Key>) {
    forall s :: s in held ==>
      s.name in w.high && (s.version < w.high[s.name] || exists k :: k in w.keys && k.key == s)
  }

  /** Nothing newer than what was announced is known, and of a name without a key only its removal. */
  ghost predicate ViewInv(w: World, view: View) {
    forall n :: n in view ==>
      && n in w.high && view[n].version <= w.high[n]
      && (!Named(w.keys, n) ==> view[n] == Key(w.high[n], n, []))
  }

  /** Every key of somebody else is known as it is. */
  ghost predicate Informed(w: World, id: ClientId, view: View) {
    forall k :: k in w.keys && k.owner != id ==> k.key.name in view && view[k.key.name] == k.key
  }

  ghost predicate MemberInv(w: World, id: ClientId, m: Member) {
    && UniqueNames(m.pending) && HeldInv(w, Held(m)) && ViewInv(w, Knows(m))
    && (m.notified ==> m.holding.None?)
    && (m.notified || m.holding.Some? ==> Informed(w, id, Knows(m)))
  }

  ghost predicate Inv(w: World) {
    KeysInv(w) && forall id :: id in w.members ==> MemberInv(w, id, w.members[id])
  }

  /** An update newer than anything else known of its name prevails over a copy seen later. */
  lemma {:induction false} NewerWins(view: View, held: seq<Key>, key: Key)
    requires key.name in view ==> view[key.name].version <= key.version
    requires forall s :: s in held && s.name == key.name ==> s.version < key.version
    ensures SeeAll(See(view, key), held) == SeeAll(view, held)[key.name := key]
    decreases |held|
  {
    if held != [] {
      NewerWins(view, held[..|held| - 1], key);
    }
  }

  /** A view that has the keys of a batch, and for the rest is like another. */
  ghost predicate Overlaid(r: View, base: View, batch: seq<Key>) {
    && (forall t :: t in batch ==> t.name in r && r[t.name] == t)
    && (forall n :: (forall t :: t in batch ==> t.name != n) ==>
          (n in r <==> n in base) && (n in r ==> r[n] == base[n]))
  }

  lemma {:induction false} NewerBatchWins(view: View, held: seq<Key>, batch: seq<Key>)
    requires UniqueNames(batch)
    requires forall t :: t in batch ==> t.name in view ==> view[t.name].version <= t.version
    requires forall t, s :: t in batch && s in held && s.name == t.name ==> s.version < t.version
    ensures Overlaid(SeeAll(SeeAll(view, batch), held), SeeAll(view, held), batch)
    decreases |batch|
  {
    if batch != [] {
      var front, last := batch[..|batch| - 1], batch[|batch| - 1];
      assert batch == front + [last];
      NewerBatchWins(view, held, front);
      SeeAllLeavesOthers(view, front, last.name);
      NewerWins(SeeAll(view, front), held, last);
      forall t | t in front ensures t.name != last.name {
        var i :| 0 <= i < |front| && front[i] == t;
        assert batch[i] == t;
      }
    }
  }

  lemma {:induction false} SeeAllGrows(view: View, keys: seq<Key>)
    ensures forall n :: n in view ==> n in SeeAll(view, keys) && view[n].version <= SeeAll(view, keys)[n].version
    decreases |keys|
  {
    if keys != [] {
      SeeAllGrows(view, keys[..|keys| - 1]);
    }
  }

  lemma {:induction false} RaiseAllRaises(high: map<Name, int>, batch: seq<Key>)
    requires UniqueNames(batch)
    ensures forall t :: t in batch ==> t.name in RaiseAll(high, batch) && RaiseAll(high, batch)[t.name] == t.version
    ensures forall n :: (forall t :: t in batch ==> t.name != n) ==>
              (n in RaiseAll(high, batch) <==> n in high) && (n in high ==> RaiseAll(high, batch)[n] == high[n])
    decreases |batch|
  {
    if batch != [] {
      var front, last := batch[..|batch| - 1], batch[|batch| - 1];
      assert batch == front + [last];
      RaiseAllRaises(high, front);
      forall t | t in front ensures t.name != last.name {
        var i :| 0 <= i < |front| && front[i] == t;
        assert batch[i] == t;
      }
    }
  }

  /** Versions not announced before, and newer than those of the keys they replace. */
  ghost predicate Newer(w: World, batch: seq<Key>) {
    && UniqueNames(batch)
    && (forall t :: t in batch ==> t.name in w.high ==> w.high[t.name] <= t.version)
    && (forall t, k :: t in batch && k in w.keys && k.key.name == t.name ==> k.key.version < t.version)
  }

  /**
   The table changes in the names of the batch only, where there is the announced key, or none
   and a removal was announced.
   */
  ghost predicate Changed(w: World, w': World, batch: seq<Key>) {
    && w'.high == RaiseAll(w.high, batch)
    && (forall k :: k in w'.keys ==> k in w.keys || k.key in batch)
    && (forall k :: k in w.keys ==> k in w'.keys || exists t :: t in batch && t.name == k.key.name)
    && (forall t :: t in batch ==> (exists k :: k in w'.keys && k.key == t) || (!Named(w'.keys, t.name) && t.value == []))
    && (forall t, k :: t in batch && k in w'.keys && k.key.name == t.name ==> k.key == t)
  }

  ghost predicate Announces(w: World, w': World, batch: seq<Key>) { Newer(w, batch) && Changed(w, w', batch) }

  lemma {:induction false} HeldIsOlder(w: World, batch: seq<Key>, held: seq<Key>)
    requires KeysInv(w) && Newer(w, batch) && HeldInv(w, held)
    ensures forall t, s :: t in batch && s in held && s.name == t.name ==> s.version < t.version
  {
    forall t, s | t in batch && s in held && s.name == t.name ensures s.version < t.version {
      if s.version >= w.high[s.name] {
        var k :| k in w.keys && k.key == s;
      }
    }
  }

  /** Being notified is, for what the client makes of it, seeing every update of the batch. */
  lemma {:induction false} NotifyIsSeeing(m: Member, batch: seq<Key>)
    requires UniqueNames(m.pending)
    ensures Knows(Notify(m, batch)) == SeeAll(SeeAll(Seen(m), batch), Held(m))
    ensures UniqueNames(Notify(m, batch).pending)
  {
    CoalesceAllIsSeeAll(SeeAll(map[], m.sent), m.pending, batch);
  }

  lemma {:induction false} SeenIsOlder(w: World, batch: seq<Key>, m: Member)
    requires Newer(w, batch) && ViewInv(w, Knows(m))
    ensures forall t :: t in batch && t.name in Seen(m) ==> Seen(m)[t.name].version <= t.version
  {
    SeeAllGrows(Seen(m), Held(m));
    forall t | t in batch && t.name in Seen(m) ensures Seen(m)[t.name].version <= t.version {
      assert t.name in Knows(m);
    }
  }

  lemma {:induction false} AnnouncementReaches(w: World, batch: seq<Key>, m: Member)
    requires KeysInv(w) && Newer(w, batch)
    requires UniqueNames(m.pending) && HeldInv(w, Held(m)) && ViewInv(w, Knows(m))
    ensures Overlaid(Knows(Notify(m, batch)), Knows(m), batch)
    ensures UniqueNames(Notify(m, batch).pending)
  {
    HeldIsOlder(w, batch, Held(m));
    SeenIsOlder(w, batch, m);
    NotifyIsSeeing(m, batch);
    NewerBatchWins(Seen(m), Held(m), batch);
  }

  lemma {:induction false} AnnouncementKeepsHeld(w: World, w': World, batch: seq<Key>, held: seq<Key>)
    requires KeysInv(w) && Announces(w, w', batch) && HeldInv(w, held)
    ensures HeldInv(w', held)
  {
    RaiseAllRaises(w.high, batch);
    forall s | s in held ensures s.name in w'.high && (s.version < w'.high[s.name] || exists k :: k in w'.keys && k.key == s) {
      if t :| t in batch && t.name == s.name {
        assert w'.high[t.name] == t.version;
        if s.version >= w.high[s.name] {
          var k :| k in w.keys && k.key == s;
        }
      } else if s.version >= w.high[s.name] {
        var k :| k in w.keys && k.key == s;
      }
    }
  }

  lemma {:induction false} AnnouncementKeepsKeys(w: World, w': World, batch: seq<Key>)
    requires KeysInv(w) && Announces(w, w', batch) && UniqueKeyNames(w'.keys)
    ensures KeysInv(w')
  {
    RaiseAllRaises(w.high, batch);
    forall k | k in w'.keys ensures k.key.name in w'.high && w'.high[k.key.name] == k.key.version {
      if t :| t in batch && t.name == k.key.name {
      } else {
        assert k in w.keys;
      }
    }
  }

  lemma {:induction false} AnnouncementKeepsMember(w: World, w': World, batch: seq<Key>, id: ClientId, m: Member)
    requires KeysInv(w) && Announces(w, w', batch) && MemberInv(w, id, m)
    ensures MemberInv(w', id, Notify(m, batch))
  {
    AnnouncementReaches(w, batch, m);
    AnnouncementKeepsHeld(w, w', batch, Held(m));
    RaiseAllRaises(w.high, batch);
    var r := Knows(Notify(m, batch));
    forall n | n in r
      ensures n in w'.high && r[n].version <= w'.high[n] && (!Named(w'.keys, n) ==> r[n] == Key(w'.high[n], n, []))
    {
      if t :| t in batch && t.name == n {
        assert r[t.name] == t;
      } else {
        assert n in Knows(m) && r[n] == Knows(m)[n];
        if Named(w.keys, n) {
          var k :| k in w.keys && k.key.name == n;
          assert k in w'.keys;
        }
      }
    }
    if m.notified || m.holding.Some? {
      forall k | k in w'.keys && k.owner != id ensures k.key.name in r && r[k.key.name] == k.key {
        if t :| t in batch && t.name == k.key.name {
        } else {
          assert k in w.keys;
        }
      }
    }
  }

  lemma {:induction false} SourceKeepsView(w: World, w': World, key: Key, view: View)
    requires Announces(w, w', [key]) && Named(w'.keys, key.name) && ViewInv(w, view)
    ensures ViewInv(w', view)
  {
    RaiseAllRaises(w.high, [key]);
    assert key in [key];
    forall n | n in view
      ensures n in w'.high && view[n].version <= w'.high[n] && (!Named(w'.keys, n) ==> view[n] == Key(w'.high[n], n, []))
    {
      if n != key.name && Named(w.keys, n) {
        var k :| k in w.keys && k.key.name == n;
        assert k in w'.keys;
      }
    }
  }

  /** The client that makes the change is not told; it knows the rest as before. */
  lemma {:induction false} SourceKeepsInv(w: World, w': World, key: Key, id: ClientId, m: Member)
    requires KeysInv(w) && Announces(w, w', [key])
    requires UniqueKeyNames(w'.keys) && ClientKey(key, id) in w'.keys
    requires MemberInv(w, id, m)
    ensures MemberInv(w', id, m)
  {
    AnnouncementKeepsHeld(w, w', [key], Held(m));
    SourceKeepsView(w, w', key, Knows(m));
    forall k | k in w'.keys && k.owner != id ensures k in w.keys {
      FindUnique(w'.keys, k);
      FindUnique(w'.keys, ClientKey(key, id));
    }
  }

  // ----- The steps ----------------------------------------------------------------------

  lemma {:induction false} SetIsNewer(w: World, id: ClientId, oldVersion: int, key: Key)
    requires KeysInv(w) && Disciplined(w, Set(id, oldVersion, key))
    requires Sessions.SetKey(w.keys, oldVersion, ClientKey(key, id)).1
    ensures Newer(w, [key])
  {
    var i := FindKey(w.keys, key.name);
    forall k | k in w.keys && k.key.name == key.name ensures k.key.version < key.version {
      FindUnique(w.keys, k);
    }
    if i < |w.keys| {
      assert w.keys[i] in w.keys;
    }
  }

  lemma {:induction false} SetChanges(w: World, id: ClientId, oldVersion: int, key: Key)
    requires UniqueKeyNames(w.keys)
    requires Sessions.SetKey(w.keys, oldVersion, ClientKey(key, id)).1
    ensures Changed(w, ApplySet(w, id, oldVersion, key), [key])
  {
    var w', k' := ApplySet(w, id, oldVersion, key), ClientKey(key, id);
    SetFindsNew(w.keys, oldVersion, k');
    var i := FindKey(w.keys, key.name);
    forall k | k in w.keys ensures k in w'.keys || k.key.name == key.name {
      var n :| 0 <= n < |w.keys| && w.keys[n] == k;
      assert n != i ==> w'.keys[n] == k;
    }
    forall k | k in w'.keys && k.key.name == key.name ensures k.key == key {
      FindUnique(w'.keys, k);
    }
  }

  lemma {:induction false} SetKeepsInv(w: World, id: ClientId, oldVersion: int, key: Key)
    requires Inv(w) && Disciplined(w, Set(id, oldVersion, key))
    ensures Inv(ApplySet(w, id, oldVersion, key))
  {
    var w' := ApplySet(w, id, oldVersion, key);
    if Sessions.SetKey(w.keys, oldVersion, ClientKey(key, id)).1 {
      SetIsNewer(w, id, oldVersion, key);
      SetChanges(w, id, oldVersion, key);
      SetFindsNew(w.keys, oldVersion, ClientKey(key, id));
      AnnouncementKeepsKeys(w, w', [key]);
      forall x | x in w'.members ensures MemberInv(w', x, w'.members[x]) {
        if x == id {
          SourceKeepsInv(w, w', key, id, w.members[x]);
        } else {
          AnnouncementKeepsMember(w, w', [key], x, w.members[x]);
        }
      }
    }
  }

  lemma {:induction false} TombstonesAreUnique(keys: seq<ClientKey>, owner: ClientId)
    requires UniqueKeyNames(keys)
    ensures UniqueNames(Tombstones(keys, owner))
    decreases |keys|
  {
    if keys != [] {
      var front, last := keys[..|keys| - 1], keys[|keys| - 1];
      TombstonesAreUnique(front, owner);
      TombstonesAre(front, owner);
      forall t | t in Tombstones(front, owner) ensures t.name != last.key.name {
        var k :| k in front && k.owner == owner && t == Key(k.key.version + 1, k.key.name, []);
        var i :| 0 <= i < |front| && front[i] == k;
        assert keys[i] == k;
      }
    }
  }

  lemma {:induction false} LeaveAnnounces(w: World, id: ClientId)
    requires KeysInv(w)
    ensures var w' := ApplyLeave(w, id);
            Announces(w, w', Tombstones(w.keys, id)) && UniqueKeyNames(w'.keys)
  {
    var w', gone := ApplyLeave(w, id), Tombstones(w.keys, id);
    OthersKeysAreUnique(w.keys, id);
    TombstonesAre(w.keys, id);
    TombstonesAreUnique(w.keys, id);
    forall t | t in gone
      ensures t.value == [] && !Named(w'.keys, t.name)
      ensures t.name in w.high && w.high[t.name] <= t.version
      ensures forall k :: k in w.keys && k.key.name == t.name ==> k.key.version < t.version
    {
      var o :| o in w.keys && o.owner == id && t == Key(o.key.version + 1, o.key.name, []);
      FindUnique(w.keys, o);
      forall k | k in w.keys && k.key.name == t.name ensures k == o {
        FindUnique(w.keys, k);
      }
    }
    forall k | k in w.keys ensures k in w'.keys || exists t :: t in gone && t.name == k.key.name {
      if k.owner == id {
        var t := Key(k.key.version + 1, k.key.name, []);
        assert t in gone;
      }
    }
  }

  lemma {:induction false} LeaveKeepsInv(w: World, id: ClientId)
    requires Inv(w)
    ensures Inv(ApplyLeave(w, id))
  {
    var w', gone := ApplyLeave(w, id), Tombstones(w.keys, id);
    LeaveAnnounces(w, id);
    AnnouncementKeepsKeys(w, w', gone);
    forall x | x in w'.members ensures MemberInv(w', x, w'.members[x]) {
      assert w'.members[x] == Notify(w.members[x], gone);
      AnnouncementKeepsMember(w, w', gone, x, w.members[x]);
    }
  }

  lemma {:induction false} CopyIsOfKeys(keys: seq<ClientKey>)
    requires UniqueKeyNames(keys)
    ensures UniqueNames(KeysOf(keys))
    ensures forall s :: s in KeysOf(keys) ==> exists k :: k in keys && k.key == s
    ensures forall k :: k in keys ==> k.key in KeysOf(keys)
  {
    var held := KeysOf(keys);
    forall s | s in held ensures exists k :: k in keys && k.key == s {
      var i :| 0 <= i < |held| && held[i] == s;
      assert keys[i] in keys;
    }
    forall k | k in keys ensures k.key in held {
      var i :| 0 <= i < |keys| && keys[i] == k;
      assert held[i] == k.key;
    }
  }

  lemma {:induction false} CopyTells(w: World, view: View)
    requires KeysInv(w) && ViewInv(w, view)
    ensures var r := SeeAll(view, KeysOf(w.keys));
            ViewInv(w, r) && forall k :: k in w.keys ==> k.key.name in r && r[k.key.name] == k.key
  {
    var held := KeysOf(w.keys);
    CopyIsOfKeys(w.keys);
    NewerBatchWins(view, [], held);
    var r := SeeAll(view, held);
    forall n | n in r
      ensures n in w.high && r[n].version <= w.high[n] && (!Named(w.keys, n) ==> r[n] == Key(w.high[n], n, []))
    {
      if s :| s in held && s.name == n {
        var k :| k in w.keys && k.key == s;
        assert r[n] == k.key;
      } else {
        assert n in view && r[n] == view[n];
      }
    }
  }

  lemma {:induction false} CopyKeepsMember(w: World, id: ClientId, m: Member)
    requires KeysInv(w) && MemberInv(w, id, m) && !m.notified && m.holding.None?
    ensures MemberInv(w, id, m.(holding := Some(KeysOf(w.keys))))
  {
    var held := KeysOf(w.keys);
    var m' := m.(holding := Some(held));
    assert Knows(m) == Seen(m) && Knows(m') == SeeAll(Seen(m), held);
    CopyTells(w, Seen(m));
    CopyIsOfKeys(w.keys);
    assert HeldInv(w, held);
  }

  lemma {:induction false} CopyKeepsInv(w: World, id: ClientId)
    requires Inv(w) && Enabled(w, Copy(id))
    ensures Inv(Apply(w, Copy(id)))
  {
    var w', m := Apply(w, Copy(id)), w.members[id];
    CopyKeepsMember(w, id, m);
    assert MemberInv(w, id, w'.members[id]);
    SameTable(w, w', id, w'.members[id]);
    OthersStay(w, w', id);
  }

  lemma {:induction false} SameTable(w: World, w': World, id: ClientId, m: Member)
    requires w.keys == w'.keys && w.high == w'.high && MemberInv(w, id, m)
    ensures MemberInv(w', id, m)
  {
  }

  /** Steps that change one client only. */
  lemma {:induction false} OthersStay(w: World, w': World, id: ClientId)
    requires Inv(w) && id in w'.members && w' == w.(members := w.members[id := w'.members[id]])
    requires MemberInv(w', id, w'.members[id])
    ensures Inv(w')
  {
    forall x | x in w'.members ensures MemberInv(w', x, w'.members[x]) {
      if x != id {
        SameTable(w, w', x, w.members[x]);
      }
    }
  }

  /** What a client knows is the same before and after it is told of its copy. */
  lemma {:induction false} TellingKeepsKnowledge(m: Member)
    requires UniqueNames(m.pending) && m.holding.Some?
    ensures var m' := Notify(m, m.holding.value).(holding := None, notified := true);
            Knows(m') == Knows(m) && UniqueNames(m'.pending)
  {
    CoalesceAllIsSeeAll(SeeAll(map[], m.sent), m.pending, m.holding.value);
  }

  /** And before and after sending. */
  lemma {:induction false} SendingKeepsKnowledge(m: Member)
    ensures Knows(m.(sent := m.sent + m.pending, pending := [])) == Knows(m)
  {
    SeeAllAppend(map[], m.sent, m.pending);
  }

  lemma {:induction false} TellingKeepsInv(w: World, step: Step)
    requires Inv(w) && Enabled(w, step) && (step.NotifyCopy? || step.Drain?)
    ensures Inv(Apply(w, step))
  {
    var w' := Apply(w, step);
    var m, m' := w.members[step.id], w'.members[step.id];
    assert MemberInv(w, step.id, m);
    if step.Drain? {
      SendingKeepsKnowledge(m);
    } else {
      TellingKeepsKnowledge(m);
    }
    assert MemberInv(w, step.id, m');
    SameTable(w, w', step.id, m');
    OthersStay(w, w', step.id);
  }

  lemma {:induction false} StepKeepsInv(w: World, step: Step)
    requires Inv(w) && Enabled(w, step) && Disciplined(w, step)
    ensures Inv(Apply(w, step))
  {
    match step {
      case Join(id) => OthersStay(w, Apply(w, step), id);
      case Copy(id) => CopyKeepsInv(w, id);
      case Set(id, oldVersion, key) => SetKeepsInv(w, id, oldVersion, key);
      case Leave(id) => LeaveKeepsInv(w, id);
      case _ => TellingKeepsInv(w, step);
    }
  }

  lemma {:induction false} RunKeepsInv(w: World, steps: seq<Step>)
    requires Inv(w) && ValidRun(w, steps) && DisciplinedRun(w, steps)
    ensures Inv(Run(w, steps))
    decreases |steps|
  {
    if steps != [] {
      StepKeepsInv(w, steps[0]);
      RunKeepsInv(Apply(w, steps[0]), steps[1..]);
    }
  }

  // ----- Main results -------------------------------------------------------------------

  /**
   After any disciplined run, every client that was notified of its copy knows, from what was
   sent and what is queued, each key that somebody else holds exactly as the session has it, and
   of a name without a key it knows at most that the key is gone.  Owners may have left meanwhile
   and updates may have overtaken the copy.
   */
  lemma {:induction false} KeyViewsConverge(steps: seq<Step>, id: ClientId)
    requires ValidRun(START, steps) && DisciplinedRun(START, steps)
    requires id in Run(START, steps).members && Run(START, steps).members[id].notified
    ensures var w := Run(START, steps); var view := Seen(w.members[id]);
            && (forall k :: k in w.keys && k.owner != id ==> k.key.name in view && view[k.key.name] == k.key)
            && (forall n :: n in view && (forall k :: k in w.keys ==> k.key.name != n) ==> view[n].value == [])
  {
    RunKeepsInv(START, steps);
    var w := Run(START, steps);
    assert MemberInv(w, id, w.members[id]);
  }

  /** The newest of a list prevails over a view that knows nothing newer. */
  lemma {:induction false} NewestPrevails(view: View, held: seq<Key>, newest: Key)
    requires newest in held
    requires forall s :: s in held && s.name == newest.name ==> s == newest || s.version < newest.version
    requires newest.name in view ==> view[newest.name].version <= newest.version
    ensures newest.name in SeeAll(view, held) && SeeAll(view, held)[newest.name] == newest
    decreases |held|
  {
    var front, last := held[..|held| - 1], held[|held| - 1];
    assert held == front + [last];
    if newest in front {
      NewestPrevails(view, front, newest);
    } else {
      SeeAllKeepsBelow(view, front, newest);
    }
  }

  lemma {:induction false} SeeAllKeepsBelow(view: View, keys: seq<Key>, bound: Key)
    requires bound.name in view ==> view[bound.name].version <= bound.version
    requires forall s :: s in keys && s.name == bound.name ==> s.version <= bound.version
    ensures bound.name in SeeAll(view, keys) ==> SeeAll(view, keys)[bound.name].version <= bound.version
    decreases |keys|
  {
    if keys != [] {
      SeeAllKeepsBelow(view, keys[..|keys| - 1], bound);
    }
  }

  lemma {:induction false} SeenOrHeld(view: View, held: seq<Key>, name: Name)
    ensures name in SeeAll(view, held) ==>
              SeeAll(view, held)[name] in held || (name in view && SeeAll(view, held)[name] == view[name])
    decreases |held|
  {
    if held != [] {
      assert held == held[..|held| - 1] + [held[|held| - 1]];
      SeenOrHeld(view, held[..|held| - 1], name);
    }
  }

  /** Of the name of a key in the session a client holds that key, or older versions. */
  lemma {:induction false} HeldOfName(w: World, held: seq<Key>, k: ClientKey)
    requires KeysInv(w) && HeldInv(w, held) && k in w.keys
    ensures forall s :: s in held && s.name == k.key.name ==> s == k.key || s.version < k.key.version
  {
    forall s | s in held && s.name == k.key.name && s.version >= k.key.version ensures s == k.key {
      var k' :| k' in w.keys && k'.key == s;
      FindUnique(w.keys, k);
      FindUnique(w.keys, k');
    }
  }

  lemma {:induction false} UpdateReachesIff(w: World, m: Member, k: ClientKey, key: Key)
    requires KeysInv(w) && k in w.keys && k.key.name == key.name && k.key != key
    requires UniqueNames(m.pending) && HeldInv(w, Held(m)) && ViewInv(w, Knows(m))
    requires key.name in Knows(m) && Knows(m)[key.name] == k.key
    ensures var view := Knows(Notify(m, [key]));
            key.name in view &&
            (view[key.name] == key <==> if k.key in Held(m) then key.version > k.key.version else key.version >= k.key.version)
  {
    var held, seen := Held(m), Seen(m);
    NotifyIsSeeing(m, [key]);
    assert [key][..0] == [];
    assert SeeAll(seen, [key]) == See(seen, key);
    HeldOfName(w, held, k);
    SeeAllGrows(seen, held);
    SeenOrHeld(seen, held, key.name);
    if key.version > k.key.version || (key.version == k.key.version && k.key !in held) {
      NewerWins(seen, held, key);
    } else if k.key in held {
      NewestPrevails(See(seen, key), held, k.key);
    } else {
      assert See(seen, key) == seen;
    }
  }

  /**
   Exactly when a client sees that somebody replaces a key: when the new version is no lower than
   the old one; and higher, if the client still has to be notified of a copy that has the old key.
   */
  lemma {:induction false} UpdateIsSeenIff(steps: seq<Step>, id: ClientId, k: ClientKey, key: Key, other: ClientId)
    requires ValidRun(START, steps) && DisciplinedRun(START, steps)
    requires var w := Run(START, steps);
             && Enabled(w, Set(id, k.key.version, key)) && k in w.keys && k.key.name == key.name && k.key != key
             && other in w.members && other != id && other != k.owner
             && (w.members[other].notified || w.members[other].holding.Some?)
    ensures var w := Run(START, steps); var m := w.members[other];
            var view := Knows(Apply(w, Set(id, k.key.version, key)).members[other]);
            key.name in view &&
            (view[key.name] == key <==> if k.key in Held(m) then key.version > k.key.version else key.version >= k.key.version)
  {
    RunKeepsInv(START, steps);
    UpdateIsSeenInState(Run(START, steps), id, k, key, other);
  }

  lemma {:induction false} UpdateIsSeenInState(w: World, id: ClientId, k: ClientKey, key: Key, other: ClientId)
    requires KeysInv(w) && k in w.keys && k.key.name == key.name && k.key != key
    requires other in w.members && MemberInv(w, other, w.members[other]) && other != id && other != k.owner
    requires w.members[other].notified || w.members[other].holding.Some?
    ensures var m, w' := w.members[other], ApplySet(w, id, k.key.version, key);
            other in w'.members && var view := Knows(w'.members[other]);
            key.name in view &&
            (view[key.name] == key <==> if k.key in Held(m) then key.version > k.key.version else key.version >= k.key.version)
  {
    FindUnique(w.keys, k);
    UpdateReachesIff(w, w.members[other], k, key);
  }

  lemma {:induction false} CreationReachesIff(w: World, m: Member, key: Key)
    requires UniqueNames(m.pending) && HeldInv(w, Held(m)) && ViewInv(w, Knows(m))
    requires !Named(w.keys, key.name) && key.name in Knows(m)
    ensures var view := Knows(Notify(m, [key]));
            key.name in w.high && key.name in view && (view[key.name] == key <==> key.version >= w.high[key.name])
  {
    var held, seen := Held(m), Seen(m);
    NotifyIsSeeing(m, [key]);
    assert [key][..0] == [];
    assert SeeAll(seen, [key]) == See(seen, key);
    assert forall s :: s in held && s.name == key.name ==> s.version < w.high[key.name];
    SeeAllGrows(seen, held);
    SeenOrHeld(seen, held, key.name);
    if key.version >= w.high[key.name] {
      NewerWins(seen, held, key);
    } else {
      assert See(seen, key) == seen;
    }
  }

  /**
   Exactly when a key that is created is seen by a client that knows of an earlier key of that
   name, connected or still joining: when its version is no lower than that of the removal.
   */
  lemma {:induction false} RecreatedKeyIsSeenIff(steps: seq<Step>, id: ClientId, key: Key, other: ClientId)
    requires ValidRun(START, steps) && DisciplinedRun(START, steps)
    requires var w := Run(START, steps);
             && Enabled(w, Set(id, 0, key)) && !Named(w.keys, key.name)
             && other in w.members && other != id && key.name in Knows(w.members[other])
    ensures var w := Run(START, steps); var view := Knows(Apply(w, Set(id, 0, key)).members[other]);
            key.name in w.high && key.name in view && (view[key.name] == key <==> key.version >= w.high[key.name])
  {
    RunKeepsInv(START, steps);
    var w := Run(START, steps);
    assert MemberInv(w, other, w.members[other]);
    FoundIsNamed(w.keys, key.name);
    CreationReachesIff(w, w.members[other], key);
  }

  // ----- Runs without that discipline ---------------------------------------------------

  lemma {:induction false} RunSnoc(w: World, steps: seq<Step>, step: Step)
    requires ValidRun(w, steps) && Enabled(Run(w, steps), step)
    ensures ValidRun(w, steps + [step]) && Run(w, steps + [step]) == Apply(Run(w, steps), step)
    decreases |steps|
  {
    if steps == [] {
      assert steps + [step] == [step] && [step][1..] == [];
    } else {
      assert (steps + [step])[1..] == steps[1..] + [step];
      RunSnoc(Apply(w, steps[0]), steps[1..], step);
    }
  }

  lemma {:induction false} Go(steps: seq<Step>, w: World, step: Step) returns (steps': seq<Step>, w': World)
    requires ValidRun(START, steps) && w == Run(START, steps) && Enabled(w, step)
    ensures ValidRun(START, steps') && w' == Run(START, steps') && w' == Apply(w, step)
  {
    RunSnoc(START, steps, step);
    steps', w' := steps + [step], Apply(w, step);
  }

  const READY := Member([], [], None, true)

  /** A client joins while nobody holds a key. */
  lemma {:induction false} Enter(steps: seq<Step>, w: World, id: ClientId) returns (steps': seq<Step>, w': World)
    requires ValidRun(START, steps) && w == Run(START, steps) && id !in w.members && w.keys == []
    ensures ValidRun(START, steps') && w' == Run(START, steps')
    ensures w'.keys == [] && w'.members == w.members[id := READY]
  {
    steps', w' := Go(steps, w, Join(id));
    steps', w' := Go(steps', w', Copy(id));
    assert w'.members[id] == Member([], [], Some([]), false);
    steps', w' := Go(steps', w', NotifyCopy(id));
    assert w'.members[id] == READY;
  }

  lemma {:induction false} OneIsTold(members: map<ClientId, Member>, source: ClientId, id: ClientId, key: Key)
    requires members.Keys == {source, id} && source != id
    ensures NotifyOthers(members, source, [key]) ==
            map[source := members[source], id := members[id].(pending := Coalesce(members[id].pending, key))]
  {
    NotifiedOf(members[id].pending, key);
  }

  lemma {:induction false} OnlyKeyGoes(k: ClientKey)
    ensures OthersKeys([k], k.owner) == []
    ensures Tombstones([k], k.owner) == [Key(k.key.version + 1, k.key.name, [])]
  {
    var gone := Key(k.key.version + 1, k.key.name, []);
    assert [k][..0] == [];
    TombstonesAre([k], k.owner);
    assert Tombstones([k], k.owner) == [] + [gone];
  }

  /** "a" sets version 2 of a key, and "b" is told. */
  lemma {:induction false} OwnerSets(n: Name, v: Bytes) returns (steps: seq<Step>, w: World)
    ensures ValidRun(START, steps) && w == Run(START, steps)
    ensures w.keys == [ClientKey(Key(2, n, v), "a")]
    ensures w.members == map["a" := READY, "b" := READY.(pending := [Key(2, n, v)])]
  {
    var k := Key(2, n, v);
    steps, w := Enter([], START, "a");
    assert "a"[0] != "b"[0];
    steps, w := Enter(steps, w, "b");
    OneIsTold(w.members, "a", "b", k);
    assert Coalesce([], k) == [k];
    steps, w := Go(steps, w, Set("a", 0, k));
  }

  /** "a" leaves, and "b" is told that the key is gone. */
  lemma {:induction false} OwnerLeaves(n: Name, v: Bytes) returns (steps: seq<Step>, w: World)
    ensures ValidRun(START, steps) && w == Run(START, steps)
    ensures w.keys == [] && w.members == map["b" := READY.(pending := [Key(3, n, [])])]
  {
    var k, gone := Key(2, n, v), Key(3, n, []);
    steps, w := OwnerSets(n, v);
    OnlyKeyGoes(w.keys[0]);
    assert "a"[0] != "b"[0];
    OneIsTold(w.members, "a", "b", gone);
    assert Find([k], n) == 0 && [k][0 := gone] == [gone];
    steps, w := Go(steps, w, Leave("a"));
  }

  /** "b" has been told that a key is gone at version 3, and never learns of the new version 1. */
  lemma {:induction false} RecreatedKeyHidden(n: Name, v: Bytes)
    ensures exists steps :: ValidRun(START, steps) &&
              var w := Run(START, steps);
              && w.keys == [ClientKey(Key(1, n, v), "c")]
              && "b" in w.members && w.members["b"] == READY.(pending := [Key(3, n, [])])
  {
    var k3, k1 := Key(3, n, []), Key(1, n, v);
    var steps, w := OwnerLeaves(n, v);
    steps, w := Enter(steps, w, "c");
    NotifiedOf([k3], k1);
    steps, w := Go(steps, w, Set("c", 0, k1));
    assert w.keys == [ClientKey(k1, "c")];
  }

  lemma {:induction false} NotifiedOf(pending: seq<Key>, key: Key)
    ensures CoalesceAll(pending, [key]) == Coalesce(pending, key)
  {
    assert [key][..0] == [];
  }

  /** "a" has set version 1 of a key before "b" registers. */
  lemma {:induction false} KeyAndNewcomer(n: Name, v: Bytes) returns (steps: seq<Step>, w: World)
    ensures ValidRun(START, steps) && w == Run(START, steps)
    ensures w.keys == [ClientKey(Key(1, n, v), "a")]
    ensures w.members == map["a" := READY, "b" := Member([], [], None, false)]
  {
    var k := Key(1, n, v);
    steps, w := Enter([], START, "a");
    assert w.members == map["a" := READY];
    steps, w := Go(steps, w, Set("a", 0, k));
    assert w.keys == [ClientKey(k, "a")];
    assert w.members == map["a" := READY];
    assert "a"[0] != "b"[0];
    steps, w := Go(steps, w, Join("b"));
  }

  /** "b" has copied version 1 when "a" puts another value under the same version. */
  lemma {:induction false} VersionReused(n: Name, v: Bytes, v': Bytes) returns (steps: seq<Step>, w: World)
    ensures ValidRun(START, steps) && w == Run(START, steps)
    ensures w.keys == [ClientKey(Key(1, n, v'), "a")]
    ensures w.members == map["a" := READY, "b" := Member([], [Key(1, n, v')], Some([Key(1, n, v)]), false)]
  {
    var k, k' := Key(1, n, v), Key(1, n, v');
    steps, w := KeyAndNewcomer(n, v);
    assert "a"[0] != "b"[0];
    assert KeysOf(w.keys) == [k];
    steps, w := Go(steps, w, Copy("b"));
    assert w.members == map["a" := READY, "b" := Member([], [], Some([k]), false)];
    OneIsTold(w.members, "a", "b", k');
    assert Coalesce([], k') == [k'];
    steps, w := Go(steps, w, Set("a", 1, k'));
  }

  /** "b" is notified of its copy after the update, and never learns of the new value. */
  lemma {:induction false} ReusedVersionHidden(n: Name, v: Bytes, v': Bytes)
    ensures exists steps :: ValidRun(START, steps) &&
              var w := Run(START, steps);
              && w.keys == [ClientKey(Key(1, n, v'), "a")]
              && "b" in w.members && w.members["b"] == READY.(pending := [Key(1, n, v)])
  {
    var k, k' := Key(1, n, v), Key(1, n, v');
    var steps, w := VersionReused(n, v, v');
    NotifiedOf([k'], k);
    assert Find([k'], n) == 0 && [k'][0 := k] == [k];
    steps, w := Go(steps, w, NotifyCopy("b"));
  }

  /** "a" replaces version 2 by version 1, and "b", who knows version 2, never learns of it. */
  lemma {:induction false} LowerVersionHidden(n: Name, v: Bytes, v': Bytes)
    ensures exists steps :: ValidRun(START, steps) &&
              var w := Run(START, steps);
              && w.keys == [ClientKey(Key(1, n, v'), "a")]
              && "b" in w.members && w.members["b"] == READY.(pending := [Key(2, n, v)])
  {
    var k, k' := Key(2, n, v), Key(1, n, v');
    var steps, w := OwnerSets(n, v);
    assert "a"[0] != "b"[0];
    OneIsTold(w.members, "a", "b", k');
    assert Find([k], n) == 0;
    steps, w := Go(steps, w, Set("a", 2, k'));
  }
}
