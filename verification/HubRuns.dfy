/** The hub goroutine and the timer of the webhook queue over any run. */
module HubRuns {
  import opened Base
  import opened Sessions
  import opened Store
  import opened Webhooks

  /** A client is fresh before it joins and never comes back under the same id. */
  datatype Place = At(doc: DocId) | Gone

  /**
   The hub, the queue and the clock; and for the record, when each document last had a session
   and what has become of the events.
   */
  datatype World = World(
    sessions: map<DocId, Session<ClientId>>, hooks: seq<Event>, hasUrl: bool,
    place: map<ClientId, Place>, now: int, lastSeen: map<DocId, int>,
    queued: multiset<Event>, sent: multiset<Event>, removed: multiset<Event>)

  /**
   Clients join, set keys and leave in any order; each closure and each round of the timer is one
   step.  Event names other than idle-session are never queued.
   */
  datatype Step =
    | Join(id: ClientId, doc: DocId)
    | Leave(id: ClientId)
    | SetClientKey(id: ClientId, oldVersion: int, key: Key)
    | GetKeys(id: ClientId)
    | Timer
    | Tick(seconds: nat)

  function Start(hasUrl: bool, now: int): World {
    World(map[], [], hasUrl, map[], now, map[], multiset{}, multiset{}, multiset{})
  }

  predicate IsAt(w: World, id: ClientId) { id in w.place && w.place[id].At? }

  predicate Enabled(w: World, step: Step) {
    match step
    case Join(id, _) => id !in w.place
    case Leave(id) => IsAt(w, id)
    case SetClientKey(id, _, _) => IsAt(w, id)
    case GetKeys(id) => IsAt(w, id)
    case Timer => true
    case Tick(_) => true
  }

  function IdleFor(doc: DocId): Event -> bool { (e: Event) => e.name == IDLE_SESSION && e.doc == doc }

  /** The closure of addClient. */
  function AddClient(w: World, doc: DocId, id: ClientId): World {
    if doc !in w.sessions then
      w.(sessions := w.sessions[doc := Session([id], [])], hooks := Reject(w.hooks, IdleFor(doc)),
         removed := w.removed + multiset(Filter(w.hooks, IdleFor(doc))))
    else
      var s := w.sessions[doc];
      w.(sessions := w.sessions[doc := s.(clients := s.clients + [id])])
  }

  /** The closure of RemoveClient. */
  function RemoveClient(w: World, doc: DocId, id: ClientId): World {
    if doc !in w.sessions then w
    else
      var s := w.sessions[doc];
      var clients := RemoveId(s.clients, id);
      if id in s.clients && clients == [] then
        var idle := Event(IDLE_SESSION, doc, w.now + IDLE_DELAY);
        var w' := w.(sessions := w.sessions - {doc}, lastSeen := w.lastSeen[doc := w.now]);
        if w.hasUrl then w'.(hooks := w.hooks + [idle], queued := w.queued + multiset{idle}) else w'
      else
        w.(sessions := w.sessions[doc := Session(clients, OthersKeys(s.keys, id))])
  }

  function Apply(w: World, step: Step): World
    requires Enabled(w, step)
  {
    match step
    case Join(id, doc) => AddClient(w, doc, id).(place := w.place[id := At(doc)])
    case Leave(id) => RemoveClient(w, w.place[id].doc, id).(place := w.place[id := Gone])
    case SetClientKey(id, oldVersion, key) =>
      var doc := w.place[id].doc;
      if doc !in w.sessions then w
      else
        var s := w.sessions[doc];
        w.(sessions := w.sessions[doc := s.(keys := Sessions.SetKey(s.keys, oldVersion, ClientKey(key, id)).0)])
    case GetKeys(_) => w
    case Timer =>
      w.(hooks := NotDue(w.hooks, w.now), sent := w.sent + multiset(Due(w.hooks, w.now)))
    case Tick(seconds) => w.(now := w.now + seconds)
  }

  ghost predicate ValidRun(w: World, steps: seq<Step>)
    decreases |steps|
  {
    steps == [] || (Enabled(w, steps[0]) && ValidRun(Apply(w, steps[0]), steps[1..]))
  }

  ghost function Run(w: World, steps: seq<Step>): World
    requires ValidRun(w, steps)
    decreases |steps|
  {
    if steps == [] then w else Run(Apply(w, steps[0]), steps[1..])
  }

  // ----- The invariant ------------------------------------------------------------------

  ghost predicate SessionInv(w: World, doc: DocId, s: Session<ClientId>) {
    && s.clients != [] && Distinct(s.clients) && UniqueKeyNames(s.keys)
    && (forall id :: id in s.clients ==> id in w.place && w.place[id] == At(doc))
    && (forall k :: k in s.keys ==> k.owner in s.clients)
  }

  ghost predicate HookInv(w: World, e: Event) {
    && e.name == IDLE_SESSION && e.doc !in w.sessions
    && e.doc in w.lastSeen && w.lastSeen[e.doc] == e.sendBy - IDLE_DELAY
  }

  ghost predicate SessionsInv(w: World) {
    && (forall doc :: doc in w.sessions ==> SessionInv(w, doc, w.sessions[doc]))
    && (forall id :: IsAt(w, id) ==> w.place[id].doc in w.sessions && id in w.sessions[w.place[id].doc].clients)
  }

  predicate DocsApart(hooks: seq<Event>) {
    forall i, j :: 0 <= i < j < |hooks| ==> hooks[i].doc != hooks[j].doc
  }

  ghost predicate HooksInv(w: World) {
    && (forall e :: e in w.hooks ==> HookInv(w, e))
    && DocsApart(w.hooks)
    && (forall doc :: doc in w.lastSeen ==> w.lastSeen[doc] <= w.now)
    && w.queued == multiset(w.hooks) + w.sent + w.removed
  }

  ghost predicate Inv(w: World) { SessionsInv(w) && HooksInv(w) }

  lemma {:induction false} RejectKeepsDocsApart(hooks: seq<Event>, p: Event -> bool)
    requires DocsApart(hooks)
    ensures DocsApart(Reject(hooks, p))
    decreases |hooks|
  {
    if hooks != [] {
      var front, last := hooks[..|hooks| - 1], hooks[|hooks| - 1];
      RejectKeepsDocsApart(front, p);
      FilterMembers(front, p);
      forall e | e in Reject(front, p) ensures e.doc != last.doc {
        var i :| 0 <= i < |front| && front[i] == e;
      }
    }
  }

  // ----- Sessions -----------------------------------------------------------------------

  lemma {:induction false} JoinKeepsSession(w: World, step: Step)
    requires SessionsInv(w) && step.Join? && Enabled(w, step)
    ensures var w' := Apply(w, step);
            && step.doc in w'.sessions && SessionInv(w', step.doc, w'.sessions[step.doc])
            && step.id in w'.sessions[step.doc].clients
            && (step.doc in w.sessions ==>
                  forall id :: id in w.sessions[step.doc].clients ==> id in w'.sessions[step.doc].clients)
  {
    if step.doc in w.sessions {
      assert SessionInv(w, step.doc, w.sessions[step.doc]);
      assert step.id !in w.sessions[step.doc].clients;
    }
  }

  lemma {:induction false} JoinKeepsSessions(w: World, step: Step)
    requires SessionsInv(w) && step.Join? && Enabled(w, step)
    ensures SessionsInv(Apply(w, step))
  {
    var w' := Apply(w, step);
    JoinKeepsSession(w, step);
    forall doc | doc in w'.sessions && doc != step.doc ensures SessionInv(w', doc, w'.sessions[doc]) {
      assert SessionInv(w, doc, w.sessions[doc]);
    }
  }

  lemma {:induction false} LeaveKeepsSession(w: World, step: Step)
    requires SessionsInv(w) && step.Leave? && Enabled(w, step)
    ensures var w', doc := Apply(w, step), w.place[step.id].doc;
            doc in w'.sessions ==> SessionInv(w', doc, w'.sessions[doc]) && step.id !in w'.sessions[doc].clients
    ensures var w', doc := Apply(w, step), w.place[step.id].doc;
            forall id :: id in w.sessions[doc].clients && id != step.id ==>
              doc in w'.sessions && id in w'.sessions[doc].clients
  {
    var doc := w.place[step.id].doc;
    var s := w.sessions[doc];
    assert SessionInv(w, doc, s);
    RemoveIdRemoves(s.clients, step.id);
    OthersKeysAreUnique(s.keys, step.id);
  }

  lemma {:induction false} LeaveKeepsSessions(w: World, step: Step)
    requires SessionsInv(w) && step.Leave? && Enabled(w, step)
    ensures SessionsInv(Apply(w, step))
  {
    var w' := Apply(w, step);
    LeaveKeepsSession(w, step);
    forall doc | doc in w'.sessions && doc != w.place[step.id].doc ensures SessionInv(w', doc, w'.sessions[doc]) {
      assert SessionInv(w, doc, w.sessions[doc]);
    }
  }

  /** Who sets a key is its owner. */
  lemma {:induction false} OwnersAfterSet(keys: seq<ClientKey>, oldVersion: int, newKey: ClientKey)
    ensures forall k :: k in Sessions.SetKey(keys, oldVersion, newKey).0 ==> k in keys || k == newKey
  {
  }

  lemma {:induction false} SetClientKeyKeepsSession(w: World, step: Step)
    requires SessionsInv(w) && step.SetClientKey? && Enabled(w, step)
    ensures var w', doc := Apply(w, step), w.place[step.id].doc;
            && doc in w'.sessions && SessionInv(w', doc, w'.sessions[doc])
            && w'.sessions[doc].clients == w.sessions[doc].clients
  {
    var doc := w.place[step.id].doc;
    var s := w.sessions[doc];
    assert SessionInv(w, doc, s);
    SetKeyMeetsContract(s.keys, step.oldVersion, ClientKey(step.key, step.id));
    OwnersAfterSet(s.keys, step.oldVersion, ClientKey(step.key, step.id));
  }

  lemma {:induction false} SetClientKeyKeepsSessions(w: World, step: Step)
    requires SessionsInv(w) && step.SetClientKey? && Enabled(w, step)
    ensures SessionsInv(Apply(w, step))
  {
    var w' := Apply(w, step);
    SetClientKeyKeepsSession(w, step);
    forall d | d in w'.sessions && d != w.place[step.id].doc ensures SessionInv(w', d, w'.sessions[d]) {
      assert SessionInv(w, d, w.sessions[d]);
    }
  }

  /** Steps that leave the sessions alone. */
  lemma {:induction false} SessionsStay(w: World, w': World)
    requires SessionsInv(w) && w'.sessions == w.sessions && w'.place == w.place
    ensures SessionsInv(w')
  {
    forall doc | doc in w'.sessions ensures SessionInv(w', doc, w'.sessions[doc]) {
      assert SessionInv(w, doc, w.sessions[doc]);
    }
  }

  // ----- Events -------------------------------------------------------------------------

  lemma {:induction false} JoinKeepsHooks(w: World, step: Step)
    requires HooksInv(w) && step.Join? && Enabled(w, step)
    ensures HooksInv(Apply(w, step))
  {
    var w' := Apply(w, step);
    var p := IdleFor(step.doc);
    FilterMembers(w.hooks, p);
    FilterPartitions(w.hooks, p);
    RejectKeepsDocsApart(w.hooks, p);
    forall e | e in w'.hooks ensures HookInv(w', e) {
      assert HookInv(w, e);
    }
  }

  /** No event is queued for a document that has a session. */
  lemma {:induction false} NoEventWithSession(w: World, doc: DocId)
    requires HooksInv(w) && doc in w.sessions
    ensures forall e :: e in w.hooks ==> e.doc != doc
  {
    forall e | e in w.hooks ensures e.doc != doc {
      assert HookInv(w, e);
    }
  }

  /** A session ends, and an event is queued for it or not. */
  lemma {:induction false} SessionEnds(w: World, w': World, doc: DocId, idle: seq<Event>)
    requires HooksInv(w) && doc in w.sessions && w'.sessions.Keys == w.sessions.Keys - {doc}
    requires w'.lastSeen == w.lastSeen[doc := w.now] && w'.now == w.now
    requires idle == [] || idle == [Event(IDLE_SESSION, doc, w.now + IDLE_DELAY)]
    requires w'.hooks == w.hooks + idle && w'.queued == w.queued + multiset(idle)
    requires w'.sent == w.sent && w'.removed == w.removed
    ensures HooksInv(w')
  {
    NoEventWithSession(w, doc);
    forall e | e in w'.hooks ensures HookInv(w', e) {
      if e in w.hooks {
        assert HookInv(w, e);
      }
    }
    assert forall i :: 0 <= i < |w.hooks| ==> w.hooks[i] in w.hooks;
    assert multiset(w'.hooks) == multiset(w.hooks) + multiset(idle);
  }

  lemma {:induction false} LeaveKeepsHooks(w: World, step: Step)
    requires HooksInv(w) && step.Leave? && Enabled(w, step) && w.place[step.id].doc in w.sessions
    ensures HooksInv(Apply(w, step))
  {
    var w' := Apply(w, step);
    var doc := w.place[step.id].doc;
    if doc in w'.sessions {
      assert w'.sessions.Keys == w.sessions.Keys;
      HooksStay(w, w');
    } else {
      var idle := Event(IDLE_SESSION, doc, w.now + IDLE_DELAY);
      SessionEnds(w, w', doc, if w.hasUrl then [idle] else []);
    }
  }

  lemma {:induction false} TimerKeepsHooks(w: World)
    requires HooksInv(w)
    ensures HooksInv(Apply(w, Timer))
  {
    var w' := Apply(w, Timer);
    var p := DueBefore(w.now);
    FilterMembers(w.hooks, p);
    FilterPartitions(w.hooks, p);
    RejectKeepsDocsApart(w.hooks, p);
    forall e | e in w'.hooks ensures HookInv(w', e) {
      assert HookInv(w, e);
    }
  }

  /** Steps that leave the queue alone and give no document a session. */
  lemma {:induction false} HooksStay(w: World, w': World)
    requires HooksInv(w) && w'.hooks == w.hooks && w'.lastSeen == w.lastSeen && w.now <= w'.now
    requires w'.sessions.Keys == w.sessions.Keys
    requires w'.queued == w.queued && w'.sent == w.sent && w'.removed == w.removed
    ensures HooksInv(w')
  {
    forall e | e in w'.hooks ensures HookInv(w', e) {
      assert HookInv(w, e);
    }
  }

  lemma {:induction false} StepKeepsInv(w: World, step: Step)
    requires Inv(w) && Enabled(w, step)
    ensures Inv(Apply(w, step))
  {
    var w' := Apply(w, step);
    match step
    case Join(_, _) =>
      JoinKeepsSessions(w, step);
      JoinKeepsHooks(w, step);
    case Leave(_) =>
      LeaveKeepsSessions(w, step);
      LeaveKeepsHooks(w, step);
    case SetClientKey(id, _, _) =>
      SetClientKeyKeepsSessions(w, step);
      assert w'.sessions.Keys == w.sessions.Keys;
      HooksStay(w, w');
    case GetKeys(_) =>
    case Timer =>
      SessionsStay(w, w');
      TimerKeepsHooks(w);
    case Tick(_) =>
      SessionsStay(w, w');
      HooksStay(w, w');
  }

  lemma {:induction false} RunKeepsInv(w: World, steps: seq<Step>)
    requires Inv(w) && ValidRun(w, steps)
    ensures Inv(Run(w, steps))
    decreases |steps|
  {
    if steps != [] {
      StepKeepsInv(w, steps[0]);
      RunKeepsInv(Apply(w, steps[0]), steps[1..]);
    }
  }

  // ----- Main results -------------------------------------------------------------------

  /**
   After any run: no session is empty, every connected client is listed exactly once and under
   its own document only, key names are unique, every key belongs to a client that is connected
   to that document, and a client that reads its session's keys finds the session.
   */
  lemma {:induction false} SessionsAreConsistent(hasUrl: bool, now: int, steps: seq<Step>)
    requires ValidRun(Start(hasUrl, now), steps)
    ensures var w := Run(Start(hasUrl, now), steps);
            && (forall doc :: doc in w.sessions ==>
                  && w.sessions[doc].clients != [] && Distinct(w.sessions[doc].clients)
                  && UniqueKeyNames(w.sessions[doc].keys)
                  && (forall k :: k in w.sessions[doc].keys ==> k.owner in w.sessions[doc].clients))
            && (forall id, doc :: IsAt(w, id) && w.place[id].doc == doc <==>
                  doc in w.sessions && id in w.sessions[doc].clients)
  {
    RunKeepsInv(Start(hasUrl, now), steps);
    var w := Run(Start(hasUrl, now), steps);
    forall doc | doc in w.sessions ensures SessionInv(w, doc, w.sessions[doc]) {
    }
  }

  /** At most one event is queued per document, only for documents without a session, and each was queued, sent or removed once. */
  lemma {:induction false} IdleEventsAreConsistent(hasUrl: bool, now: int, steps: seq<Step>)
    requires ValidRun(Start(hasUrl, now), steps)
    ensures var w := Run(Start(hasUrl, now), steps);
            && (forall i, j :: 0 <= i < j < |w.hooks| ==> w.hooks[i].doc != w.hooks[j].doc)
            && (forall e :: e in w.hooks ==> e.name == IDLE_SESSION && e.doc !in w.sessions)
            && w.queued == multiset(w.hooks) + w.sent + w.removed
  {
    RunKeepsInv(Start(hasUrl, now), steps);
    var w := Run(Start(hasUrl, now), steps);
    assert forall e :: e in w.hooks ==> HookInv(w, e);
  }

  /** A document that has a session still has one later, or was seen with one no earlier. */
  ghost predicate StillSeen(w: World, w': World, doc: DocId) {
    doc in w.sessions ==> doc in w'.sessions || (doc in w'.lastSeen && w'.lastSeen[doc] >= w.now)
  }

  lemma {:induction false} StepStillSeen(w: World, step: Step, doc: DocId)
    requires Enabled(w, step)
    ensures StillSeen(w, Apply(w, step), doc) && w.now <= Apply(w, step).now
    ensures doc in w.lastSeen && (forall d :: d in w.lastSeen ==> w.lastSeen[d] <= w.now) ==>
              doc in Apply(w, step).lastSeen && Apply(w, step).lastSeen[doc] >= w.lastSeen[doc]
  {
  }

  lemma {:induction false} RunStillSeen(w: World, steps: seq<Step>, doc: DocId)
    requires Inv(w) && ValidRun(w, steps)
    ensures StillSeen(w, Run(w, steps), doc) && w.now <= Run(w, steps).now
    ensures doc in w.lastSeen ==> doc in Run(w, steps).lastSeen && Run(w, steps).lastSeen[doc] >= w.lastSeen[doc]
    decreases |steps|
  {
    if steps != [] {
      StepKeepsInv(w, steps[0]);
      StepStillSeen(w, steps[0], doc);
      RunStillSeen(Apply(w, steps[0]), steps[1..], doc);
    }
  }

  /** A join takes out the events of its own document, if it starts a session, and no others. */
  lemma {:induction false} JoinKeepsOtherEvents(w: World, step: Step)
    requires step.Join? && Enabled(w, step)
    ensures forall e :: e in Apply(w, step).hooks <==>
              e in w.hooks && !(step.doc !in w.sessions && e.name == "idle-session" && e.doc == step.doc)
  {
    FilterMembers(w.hooks, IdleFor(step.doc));
  }

  /** Without an address to send to, no event is ever queued. */
  lemma {:induction false} NoAddressNoEvents(w: World, steps: seq<Step>)
    requires !w.hasUrl && w.hooks == [] && ValidRun(w, steps)
    ensures Run(w, steps).hooks == []
    decreases |steps|
  {
    if steps != [] {
      NoAddressNoEvents(Apply(w, steps[0]), steps[1..]);
    }
  }

  /** A round of the timer sends what is due, and keeps the rest. */
  lemma {:induction false} TimerSendsWhatIsDue(w: World)
    ensures var w' := Apply(w, Timer);
            && (forall e :: e in w'.hooks <==> e in w.hooks && w.now <= e.sendBy)
            && (forall e :: e in w'.sent <==> e in w.sent || (e in w.hooks && e.sendBy < w.now))
  {
    FilterMembers(w.hooks, DueBefore(w.now));
  }

  /** The event that is due ten seconds after the document last had a session is queued, or was sent. */
  ghost predicate Announced(w: World, doc: DocId) {
    w.hasUrl && doc in w.lastSeen && doc !in w.sessions ==>
      var e := Event("idle-session", doc, w.lastSeen[doc] + 10); e in w.hooks || e in w.sent
  }

  lemma {:induction false} StepKeepsAnnounced(w: World, step: Step, doc: DocId)
    requires Enabled(w, step) && Announced(w, doc)
    ensures Announced(Apply(w, step), doc)
  {
    match step
    case Join(_, _) => JoinKeepsOtherEvents(w, step);
    case Timer => TimerSendsWhatIsDue(w);
    case _ =>
  }

  lemma {:induction false} RunKeepsAnnounced(w: World, steps: seq<Step>, doc: DocId)
    requires ValidRun(w, steps) && Announced(w, doc)
    ensures Announced(Run(w, steps), doc) && Run(w, steps).hasUrl == w.hasUrl
    decreases |steps|
  {
    if steps != [] {
      StepKeepsAnnounced(w, steps[0], doc);
      RunKeepsAnnounced(Apply(w, steps[0]), steps[1..], doc);
    }
  }

  ghost predicate IdleEvent(e: Event, doc: DocId, from: int, to: int) {
    e.name == "idle-session" && e.doc == doc && from + 10 <= e.sendBy <= to + 10
  }

  /**
   No idle event is lost: if a document had a session at one point of a run and has none at a later
   one, and there is an address to send to, an event about that time is queued or has been sent.
   */
  lemma {:induction false} NoIdleEventIsLost(now: int, before: seq<Step>, after: seq<Step>, doc: DocId)
    requires ValidRun(Start(true, now), before) && ValidRun(Run(Start(true, now), before), after)
    requires doc in Run(Start(true, now), before).sessions
    requires doc !in Run(Run(Start(true, now), before), after).sessions
    ensures var earlier := Run(Start(true, now), before); var w := Run(earlier, after);
            exists e :: IdleEvent(e, doc, earlier.now, w.now) && (e in w.hooks || e in w.sent)
  {
    var earlier := Run(Start(true, now), before);
    RunKeepsInv(Start(true, now), before);
    RunKeepsAnnounced(Start(true, now), before, doc);
    RunKeepsInv(earlier, after);
    RunKeepsAnnounced(earlier, after, doc);
    RunStillSeen(earlier, after, doc);
    var w := Run(earlier, after);
    assert IdleEvent(Event("idle-session", doc, w.lastSeen[doc] + 10), doc, earlier.now, w.now);
  }

  /**
   An idle event goes out only for a document that nobody has been connected to for more than the
   ten seconds before: at every earlier point of the run at which the document had a session, the
   clock stood more than ten seconds behind.
   */
  lemma {:induction false} IdleEventMeansIdle(hasUrl: bool, now: int, before: seq<Step>, after: seq<Step>, e: Event)
    requires ValidRun(Start(hasUrl, now), before) && ValidRun(Run(Start(hasUrl, now), before), after)
    requires var w := Run(Run(Start(hasUrl, now), before), after); e in Due(w.hooks, w.now)
    ensures var w := Run(Run(Start(hasUrl, now), before), after); e.doc !in w.sessions
    ensures var earlier := Run(Start(hasUrl, now), before);
            e.doc in earlier.sessions ==> earlier.now + IDLE_DELAY < Run(earlier, after).now
  {
    var earlier := Run(Start(hasUrl, now), before);
    RunKeepsInv(Start(hasUrl, now), before);
    RunKeepsInv(earlier, after);
    RunStillSeen(earlier, after, e.doc);
    var w := Run(earlier, after);
    FilterMembers(w.hooks, DueBefore(w.now));
    assert HookInv(w, e);
  }
}
