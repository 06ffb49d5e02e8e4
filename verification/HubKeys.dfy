/** Client keys in the runs of the hub. */
module HubKeys {
  import opened Base
  import opened Store
  import opened Sessions
  import H = HubRuns
  import R = KeyRuns

  /** The hub, and for every connected client what it was sent, what is queued for it and the copy it holds. */
  datatype World = World(hub: H.World, members: map<ClientId, R.Member>)

  datatype Step = Hub(step: H.Step) | NotifyCopy(id: ClientId) | Drain(id: ClientId)

  function Start(hasUrl: bool, now: int): World { World(H.Start(hasUrl, now), map[]) }

  /** A client reads the keys once, after joining, and sends nothing before it was notified of them. */
  predicate Enabled(w: World, step: Step) {
    match step
    case Hub(s) =>
      && H.Enabled(w.hub, s)
      && (s.GetKeys? ==> s.id in w.members && !w.members[s.id].notified && w.members[s.id].holding.None?)
      && (s.SetClientKey? ==> s.id in w.members && w.members[s.id].notified)
    case NotifyCopy(id) => id in w.members && w.members[id].holding.Some?
    case Drain(id) => id in w.members
  }

  function Clients(w: H.World, doc: DocId): seq<ClientId> { if doc in w.sessions then w.sessions[doc].clients else [] }

  function Keys(w: H.World, doc: DocId): seq<ClientKey> { if doc in w.sessions then w.sessions[doc].keys else [] }

  /** The hub notifies the clients it has listed, but for the source. */
  function NotifyListed(members: map<ClientId, R.Member>, clients: seq<ClientId>, source: ClientId, batch: seq<Key>)
    : map<ClientId, R.Member>
  {
    map id | id in members :: if id in clients && id != source then R.Notify(members[id], batch) else members[id]
  }

  /** What a closure of the hub does for the clients. */
  function Reached(w: World, step: H.Step): map<ClientId, R.Member>
    requires Enabled(w, Hub(step))
  {
    match step
    case Join(id, _) => w.members[id := R.Member([], [], None, false)]
    case Leave(id) =>
      var doc := w.hub.place[id].doc;
      NotifyListed(w.members, RemoveId(Clients(w.hub, doc), id), id, Tombstones(Keys(w.hub, doc), id)) - {id}
    case GetKeys(id) =>
      w.members[id := w.members[id].(holding := Some(R.KeysOf(Keys(w.hub, w.hub.place[id].doc))))]
    case SetClientKey(id, oldVersion, key) =>
      var doc := w.hub.place[id].doc;
      if Sessions.SetKey(Keys(w.hub, doc), oldVersion, ClientKey(key, id)).1
      then NotifyListed(w.members, Clients(w.hub, doc), id, [key]) else w.members
    case _ => w.members
  }

  function Apply(w: World, step: Step): World
    requires Enabled(w, step)
  {
    match step
    case Hub(s) => World(H.Apply(w.hub, s), Reached(w, s))
    case NotifyCopy(id) =>
      var m := w.members[id];
      w.(members := w.members[id := R.Notify(m, m.holding.value).(holding := None, notified := true)])
    case Drain(id) =>
      var m := w.members[id];
      w.(members := w.members[id := m.(sent := m.sent + m.pending, pending := [])])
  }

  ghost predicate ValidRun(w: World, steps: seq<Step>)
    decreases |steps|
  {
    steps == [] || (Enabled(w, steps[0]) && ValidRun(Apply(w, steps[0]), steps[1..]))
  }

  ghost function Run(w: World, steps: seq<Step>): World
    requires ValidRun(w, steps)
    decreases |steps|
  {
    if steps == [] then w else Run(Apply(w, steps[0]), steps[1..])
  }

  // ----- One document -------------------------------------------------------------------

  predicate IsAt(w: World, id: ClientId, doc: DocId) { H.IsAt(w.hub, id) && w.hub.place[id].doc == doc }

  function Members(w: World, doc: DocId): map<ClientId, R.Member> {
    map id | id in w.members && IsAt(w, id, doc) :: w.members[id]
  }

  /** One document of the hub, as a state of KeyRuns. */
  predicate Shows(w: World, doc: DocId, k: R.World) {
    k.keys == Keys(w.hub, doc) && k.members == Members(w, doc)
  }

  /** The step of KeyRuns that a step is for a document, if it concerns the document. */
  function Seen(w: World, step: Step, doc: DocId): seq<R.Step>
    requires Enabled(w, step)
  {
    match step
    case NotifyCopy(id) => if IsAt(w, id, doc) then [R.NotifyCopy(id)] else []
    case Drain(id) => if IsAt(w, id, doc) then [R.Drain(id)] else []
    case Hub(s) =>
      match s
      case Join(id, d) => if d == doc then [R.Join(id)] else []
      case Leave(id) => if IsAt(w, id, doc) then [R.Leave(id)] else []
      case GetKeys(id) => if IsAt(w, id, doc) then [R.Copy(id)] else []
      case SetClientKey(id, oldVersion, key) => if IsAt(w, id, doc) then [R.Set(id, oldVersion, key)] else []
      case _ => []
  }

  ghost function SeenAll(w: World, steps: seq<Step>, doc: DocId): seq<R.Step>
    requires ValidRun(w, steps)
    decreases |steps|
  {
    if steps == [] then [] else Seen(w, steps[0], doc) + SeenAll(Apply(w, steps[0]), steps[1..], doc)
  }

  ghost predicate Inv(w: World) {
    H.SessionsInv(w.hub) && forall id :: id in w.members <==> H.IsAt(w.hub, id)
  }

  lemma {:induction false} ListedAreAt(w: World, doc: DocId)
    requires Inv(w)
    ensures Listed(w, doc)
    ensures doc in w.hub.sessions ==> Distinct(w.hub.sessions[doc].clients)
    ensures forall k :: k in Keys(w.hub, doc) ==> k.owner in Clients(w.hub, doc)
  {
    if doc in w.hub.sessions {
      assert H.SessionInv(w.hub, doc, w.hub.sessions[doc]);
    }
  }

  lemma {:induction false} StepKeepsInv(w: World, step: Step)
    requires Inv(w) && Enabled(w, step)
    ensures Inv(Apply(w, step))
  {
    if step.Hub? {
      var s := step.step;
      match s
      case Join(_, _) => H.JoinKeepsSessions(w.hub, s);
      case Leave(_) => H.LeaveKeepsSessions(w.hub, s);
      case SetClientKey(_, _, _) => H.SetClientKeyKeepsSessions(w.hub, s);
      case _ => H.SessionsStay(w.hub, H.Apply(w.hub, s));
    }
  }

  // ----- Steps --------------------------------------------------------------------------

  /** A step concerns a document at most as one step of KeyRuns. */
  ghost predicate Agrees(w: World, step: Step, doc: DocId, k: R.World)
    requires Enabled(w, step)
  {
    var seen := Seen(w, step, doc);
    if seen == [] then Shows(Apply(w, step), doc, k)
    else R.Enabled(k, seen[0]) && Shows(Apply(w, step), doc, R.Apply(k, seen[0]))
  }

  ghost predicate Listed(w: World, doc: DocId) {
    forall id :: id in Clients(w.hub, doc) <==> IsAt(w, id, doc)
  }

  lemma {:induction false} JoinAgrees(w: World, step: Step, doc: DocId, k: R.World)
    requires Enabled(w, step) && step.Hub? && step.step.Join? && step.step.id !in w.members && Shows(w, doc, k)
    ensures Agrees(w, step, doc, k)
  {
    var id, w' := step.step.id, Apply(w, step);
    assert Keys(w'.hub, doc) == Keys(w.hub, doc);
    assert Members(w', doc) ==
           if step.step.doc == doc then Members(w, doc)[id := R.Member([], [], None, false)] else Members(w, doc);
  }

  /** The clients that are notified are those of the document. */
  lemma {:induction false} ListedAreMembers(w: World, w': World, source: ClientId, home: DocId, doc: DocId, batch: seq<Key>)
    requires Listed(w, home) && w'.hub.place == w.hub.place
    requires w'.members == NotifyListed(w.members, Clients(w.hub, home), source, batch)
    ensures Members(w', doc) == if doc == home then R.NotifyOthers(Members(w, doc), source, batch) else Members(w, doc)
  {
  }

  lemma {:induction false} SetAgrees(w: World, step: Step, doc: DocId, k: R.World)
    requires Enabled(w, step) && step.Hub? && step.step.SetClientKey? && Shows(w, doc, k)
    requires Listed(w, w.hub.place[step.step.id].doc) && w.hub.place[step.step.id].doc in w.hub.sessions
    ensures Agrees(w, step, doc, k)
  {
    var id, home, w' := step.step.id, w.hub.place[step.step.id].doc, Apply(w, step);
    var (keys, ok) := Sessions.SetKey(Keys(w.hub, home), step.step.oldVersion, ClientKey(step.step.key, id));
    assert Keys(w'.hub, doc) == if doc == home then keys else Keys(w.hub, doc);
    if ok {
      ListedAreMembers(w, w', id, home, doc, [step.step.key]);
    } else {
      assert Members(w', doc) == Members(w, doc);
    }
  }

  /** When the last client leaves, it takes the last keys along. */
  lemma {:induction false} LeavingTakesKeys(w: World, id: ClientId)
    requires Inv(w) && H.IsAt(w.hub, id)
    ensures var doc := w.hub.place[id].doc;
            Keys(H.Apply(w.hub, H.Leave(id)), doc) == OthersKeys(Keys(w.hub, doc), id)
    ensures forall other :: other != w.hub.place[id].doc ==>
              Keys(H.Apply(w.hub, H.Leave(id)), other) == Keys(w.hub, other)
  {
    var doc := w.hub.place[id].doc;
    ListedAreAt(w, doc);
    var s := w.hub.sessions[doc];
    assert H.SessionInv(w.hub, doc, s);
    RemoveIdRemoves(s.clients, id);
    OthersKeysAreUnique(s.keys, id);
    if RemoveId(s.clients, id) == [] {
      var others := OthersKeys(s.keys, id);
      assert others != [] ==> others[0] in others && others[0].owner in RemoveId(s.clients, id);
    }
  }

  lemma {:induction false} RemainingAreMembers(w: World, w': World, id: ClientId, rest: seq<ClientId>, doc: DocId, batch: seq<Key>)
    requires H.IsAt(w.hub, id) && w'.hub.place == w.hub.place[id := H.Gone]
    requires w'.members == NotifyListed(w.members, rest, id, batch) - {id}
    requires forall x :: x in rest <==> x != id && IsAt(w, x, w.hub.place[id].doc)
    ensures Members(w', doc) ==
            if doc == w.hub.place[id].doc then R.NotifyOthers(Members(w, doc), id, batch) - {id} else Members(w, doc)
  {
  }

  lemma {:induction false} LeavingPlaces(w: H.World, id: ClientId)
    requires H.IsAt(w, id)
    ensures H.Apply(w, H.Leave(id)).place == w.place[id := H.Gone]
  {
  }

  lemma {:induction false} LeaveAgrees(w: World, id: ClientId, doc: DocId, k: R.World)
    requires Inv(w) && Enabled(w, Hub(H.Leave(id))) && Shows(w, doc, k)
    ensures Agrees(w, Hub(H.Leave(id)), doc, k)
  {
    var home, w' := w.hub.place[id].doc, Apply(w, Hub(H.Leave(id)));
    ListedAreAt(w, home);
    LeavingTakesKeys(w, id);
    LeavingPlaces(w.hub, id);
    RemoveIdRemoves(Clients(w.hub, home), id);
    RemainingAreMembers(w, w', id, RemoveId(Clients(w.hub, home), id), doc, Tombstones(Keys(w.hub, home), id));
  }

  /** Steps of one client that leave the keys as they are. */
  lemma {:induction false} OwnStepAgrees(w: World, step: Step, doc: DocId, k: R.World)
    requires Enabled(w, step) && (step.NotifyCopy? || step.Drain? || step.step.GetKeys?)
    requires H.IsAt(w.hub, if step.Hub? then step.step.id else step.id) && Shows(w, doc, k)
    ensures Agrees(w, step, doc, k)
  {
    var id, w' := if step.Hub? then step.step.id else step.id, Apply(w, step);
    assert Members(w', doc) == if IsAt(w, id, doc) then Members(w, doc)[id := w'.members[id]] else Members(w, doc);
  }

  lemma {:induction false} StepAgrees(w: World, step: Step, doc: DocId, k: R.World)
    requires Inv(w) && Enabled(w, step) && Shows(w, doc, k)
    ensures Agrees(w, step, doc, k)
  {
    match step
    case Hub(Join(_, _)) => JoinAgrees(w, step, doc, k);
    case Hub(SetClientKey(id, _, _)) =>
      ListedAreAt(w, w.hub.place[id].doc);
      SetAgrees(w, step, doc, k);
    case Hub(Leave(id)) => LeaveAgrees(w, id, doc, k);
    case Hub(Timer) => assert Members(Apply(w, step), doc) == Members(w, doc);
    case Hub(Tick(_)) => assert Members(Apply(w, step), doc) == Members(w, doc);
    case _ => OwnStepAgrees(w, step, doc, k);
  }

  /** At most one step leads from one state to the other. */
  predicate Leads(k: R.World, seen: seq<R.Step>, k': R.World) {
    if seen == [] then k' == k else |seen| == 1 && R.Enabled(k, seen[0]) && k' == R.Apply(k, seen[0])
  }

  lemma {:induction false} OneMoreSeen(k: R.World, seen: seq<R.Step>, k': R.World, rest: seq<R.Step>)
    requires Leads(k, seen, k') && R.ValidRun(k', rest)
    ensures R.ValidRun(k, seen + rest) && R.Run(k, seen + rest) == R.Run(k', rest)
  {
    if seen == [] {
      assert seen + rest == rest;
    } else {
      assert (seen + rest)[0] == seen[0] && (seen + rest)[1..] == rest;
    }
  }

  lemma {:induction false} StepLeads(w: World, step: Step, doc: DocId, k: R.World) returns (k': R.World)
    requires Inv(w) && Enabled(w, step) && Shows(w, doc, k)
    ensures Inv(Apply(w, step)) && Shows(Apply(w, step), doc, k') && Leads(k, Seen(w, step, doc), k')
  {
    StepAgrees(w, step, doc, k);
    StepKeepsInv(w, step);
    var seen := Seen(w, step, doc);
    k' := if seen == [] then k else R.Apply(k, seen[0]);
  }

  /** What the hub does to one document in any run is a run of KeyRuns. */
  lemma {:induction false} RunAgrees(w: World, steps: seq<Step>, doc: DocId, k: R.World)
    requires Inv(w) && ValidRun(w, steps) && Shows(w, doc, k)
    ensures R.ValidRun(k, SeenAll(w, steps, doc))
    ensures Inv(Run(w, steps)) && Shows(Run(w, steps), doc, R.Run(k, SeenAll(w, steps, doc)))
    decreases |steps|
  {
    if steps != [] {
      var w' := Apply(w, steps[0]);
      var k' := StepLeads(w, steps[0], doc, k);
      RunAgrees(w', steps[1..], doc, k');
      OneMoreSeen(k, Seen(w, steps[0], doc), k', SeenAll(w', steps[1..], doc));
    }
  }

  // ----- Main results -------------------------------------------------------------------

  /**
   Whatever clients of whatever documents do, the keys and the clients of one document are those of
   a run of KeyRuns: a join leaves the keys of a session as they are, and so does all that concerns
   other documents.
   */
  lemma {:induction false} HubRunsAreKeyRuns(hasUrl: bool, now: int, steps: seq<Step>, doc: DocId)
    requires ValidRun(Start(hasUrl, now), steps)
    ensures var w, seen := Run(Start(hasUrl, now), steps), SeenAll(Start(hasUrl, now), steps, doc);
            && R.ValidRun(R.START, seen)
            && Keys(w.hub, doc) == R.Run(R.START, seen).keys
            && (forall id :: id in R.Run(R.START, seen).members <==> IsAt(w, id, doc))
            && (forall id :: IsAt(w, id, doc) ==> id in w.members && w.members[id] == R.Run(R.START, seen).members[id])
  {
    RunAgrees(Start(hasUrl, now), steps, doc, R.START);
  }

  /** So clients come to know the keys in the hub's sessions. */
  lemma {:induction false} HubKeyViewsConverge(hasUrl: bool, now: int, steps: seq<Step>, doc: DocId, id: ClientId)
    requires ValidRun(Start(hasUrl, now), steps)
    requires var seen := SeenAll(Start(hasUrl, now), steps, doc);
             R.ValidRun(R.START, seen) && R.DisciplinedRun(R.START, seen)
    requires var w := Run(Start(hasUrl, now), steps); IsAt(w, id, doc) && id in w.members && w.members[id].notified
    ensures var w := Run(Start(hasUrl, now), steps); var view := R.Seen(w.members[id]);
            && doc in w.hub.sessions
            && (forall k :: k in w.hub.sessions[doc].keys && k.owner != id ==>
                  k.key.name in view && view[k.key.name] == k.key)
            && (forall n :: n in view && (forall k :: k in w.hub.sessions[doc].keys ==> k.key.name != n) ==>
                  view[n].value == [])
  {
    RunAgrees(Start(hasUrl, now), steps, doc, R.START);
    R.KeyViewsConverge(SeenAll(Start(hasUrl, now), steps, doc), id);
  }

  /** And no change of a key in a session is lost. */
  lemma {:induction false} HubLosesNoUpdates(hasUrl: bool, now: int, steps: seq<Step>, doc: DocId, name: Name)
    requires ValidRun(Start(hasUrl, now), steps)
    ensures var w, seen := Run(Start(hasUrl, now), steps), SeenAll(Start(hasUrl, now), steps, doc);
            && R.ValidRun(R.START, seen)
            && var chain := R.Chain(R.Run(R.START, seen).log, name);
               && R.Linked(chain)
               && (chain == [] <==> forall k :: k in Keys(w.hub, doc) ==> k.key.name != name)
               && (forall k :: k in Keys(w.hub, doc) && k.key.name == name ==> chain[|chain| - 1].key == k.key)
  {
    RunAgrees(Start(hasUrl, now), steps, doc, R.START);
    R.NoLostUpdates(SeenAll(Start(hasUrl, now), steps, doc), name);
  }

  /** The step sets that key, or its owner leaves. */
  predicate Ends(step: Step, k: ClientKey, doc: DocId, w: World) {
    step.Hub? &&
    (step.step == H.Leave(k.owner) ||
     (step.step.SetClientKey? && IsAt(w, step.step.id, doc) && step.step.key.name == k.key.name))
  }

  ghost predicate Undisturbed(w: World, steps: seq<Step>, k: ClientKey, doc: DocId)
    requires ValidRun(w, steps)
    decreases |steps|
  {
    steps == [] || (!Ends(steps[0], k, doc, w) && Undisturbed(Apply(w, steps[0]), steps[1..], k, doc))
  }

  lemma {:induction false} SettingKeepsOthers(keys: seq<ClientKey>, oldVersion: int, newKey: ClientKey, k: ClientKey)
    requires k in keys && k.key.name != newKey.key.name
    ensures k in Sessions.SetKey(keys, oldVersion, newKey).0
  {
    var j :| 0 <= j < |keys| && keys[j] == k;
    assert Sessions.SetKey(keys, oldVersion, newKey).0[j] == k;
  }

  lemma {:induction false} LeavingKeepsOthers(w: World, id: ClientId, k: ClientKey, doc: DocId)
    requires Inv(w) && H.IsAt(w.hub, id) && k in Keys(w.hub, doc) && k.owner != id
    ensures k in Keys(H.Apply(w.hub, H.Leave(id)), doc)
  {
    LeavingTakesKeys(w, id);
    assert doc in w.hub.sessions && H.SessionInv(w.hub, doc, w.hub.sessions[doc]);
    OthersKeysAreUnique(Keys(w.hub, doc), id);
  }

  lemma {:induction false} StepKeepsKey(w: World, step: Step, k: ClientKey, doc: DocId)
    requires Inv(w) && Enabled(w, step) && k in Keys(w.hub, doc) && !Ends(step, k, doc, w)
    ensures k in Keys(Apply(w, step).hub, doc)
  {
    match step
    case Hub(Leave(id)) => LeavingKeepsOthers(w, id, k, doc);
    case Hub(SetClientKey(id, oldVersion, key)) =>
      if IsAt(w, id, doc) {
        SettingKeepsOthers(Keys(w.hub, doc), oldVersion, ClientKey(key, id), k);
      }
    case _ =>
  }

  lemma {:induction false} RunKeepsKey(w: World, steps: seq<Step>, k: ClientKey, doc: DocId)
    requires Inv(w) && ValidRun(w, steps) && k in Keys(w.hub, doc) && Undisturbed(w, steps, k, doc)
    ensures k in Keys(Run(w, steps).hub, doc)
    decreases |steps|
  {
    if steps != [] {
      StepKeepsKey(w, steps[0], k, doc);
      StepKeepsInv(w, steps[0]);
      RunKeepsKey(Apply(w, steps[0]), steps[1..], k, doc);
    }
  }

  /** In every run a key stays in its session until it is set again or its owner leaves, whoever joins meanwhile. */
  lemma {:induction false} KeyStays(hasUrl: bool, now: int, before: seq<Step>, after: seq<Step>, k: ClientKey, doc: DocId)
    requires ValidRun(Start(hasUrl, now), before) && ValidRun(Run(Start(hasUrl, now), before), after)
    requires k in Keys(Run(Start(hasUrl, now), before).hub, doc)
    requires Undisturbed(Run(Start(hasUrl, now), before), after, k, doc)
    ensures k in Keys(Run(Run(Start(hasUrl, now), before), after).hub, doc)
  {
    RunAgrees(Start(hasUrl, now), before, doc, R.START);
    RunKeepsKey(Run(Start(hasUrl, now), before), after, k, doc);
  }
}
