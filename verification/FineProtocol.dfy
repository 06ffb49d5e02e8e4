/**
 The append protocol with every call a step of its own: clients send any offset at any time,
 the database append, the acknowledgement, the update of `lastEnd` and the call to the hub may
 be separated by anything, and the hub goroutine checks, marks and queues one client at a time
 while the clients' own goroutines run.
 */
module FineProtocol {
  import opened Base
  import opened Protocol
  import Store

  /** An append the database has accepted, empty or not; its position in the log is its name. */
  datatype Accepted = Accepted(source: ClientId, offset: nat, data: Bytes)

  /** Where a client's goroutine is. */
  datatype Phase =
    | Fetched(offset: nat, data: Bytes)  // the document is read
    | Greeted                            // the snapshot is queued
    | Ready                              // the hub has been asked to register the client
    | Accepting(k: nat)                  // the database has accepted append k
    | Acknowledged(k: nat)               // the acknowledgement is queued
    | Marking(k: nat)                    // lastEnd is updated
    | Gone

  /**
   The right to write as the handler of an append finds it: before the database is called, after
   it has accepted, and, if the right was missing then, once more.
   */
  datatype Reads = Reads(before: bool, after: bool, again: bool)

  /** A range the client has been told of: the snapshot, an append of its own, or somebody else's. */
  datatype Told = Told(index: Option<nat>, own: bool, offset: nat, data: Bytes)

  datatype Client = Client(phase: Phase, lastEnd: nat, told: seq<Told>)

  datatype Closure = Register(id: ClientId) | Unregister(id: ClientId) | Deliver(k: nat)

  datatype Stage = Fresh | Checked | Marked

  /** The hub goroutine inside a Deliver closure. */
  datatype Loop = Loop(k: nat, todo: seq<ClientId>, stage: Stage)

  datatype System = System(
    doc: Option<Bytes>, log: seq<Accepted>, clients: map<ClientId, Client>,
    fifo: seq<Closure>, members: seq<ClientId>, loop: Option<Loop>)

  datatype Step =
    | Fetch(id: ClientId, mode: nat, initial: Bytes, claimed: nat)
    | Greet(id: ClientId)
    | Join(id: ClientId)
    | Append(id: ClientId, offset: nat, data: Bytes, may: Reads)
    | QueueAck(id: ClientId)
    | SetLastEnd(id: ClientId)
    | CallHub(id: ClientId)
    | Leave(id: ClientId)
    | HubTake | HubCheck | HubMark | HubQueue | HubDone

  function Start(doc: Option<Bytes>): System { System(doc, [], map[], [], [], None) }

  predicate In(s: System, id: ClientId) { id in s.clients }

  predicate Enabled(s: System, step: Step) {
    match step
    case Fetch(id, _, _, _) => id !in s.clients
    case Greet(id) => In(s, id) && s.clients[id].phase.Fetched?
    case Join(id) => In(s, id) && s.clients[id].phase.Greeted?
    case Append(id, _, _, _) => In(s, id) && s.clients[id].phase.Ready?
    case QueueAck(id) => In(s, id) && s.clients[id].phase.Accepting? && s.clients[id].phase.k < |s.log|
    case SetLastEnd(id) => In(s, id) && s.clients[id].phase.Acknowledged? && s.clients[id].phase.k < |s.log|
    case CallHub(id) => In(s, id) && s.clients[id].phase.Marking?
    case Leave(id) => In(s, id) && s.clients[id].phase.Ready?
    case HubTake => s.loop.None? && s.fifo != []
    case HubCheck => AtClient(s) && s.loop.value.stage.Fresh?
    case HubMark => AtClient(s) && s.loop.value.stage.Checked?
    case HubQueue => AtClient(s) && s.loop.value.stage.Marked?
    case HubDone => s.loop.Some? && s.loop.value.todo == []
  }

  predicate AtClient(s: System) {
    s.loop.Some? && s.loop.value.todo != [] && s.loop.value.todo[0] in s.clients && s.loop.value.k < |s.log|
  }

  function End(a: Accepted): nat { a.offset + |a.data| }

  function Set(s: System, id: ClientId, c: Client): System { s.(clients := s.clients[id := c]) }

  function Without(ids: seq<ClientId>, id: ClientId): seq<ClientId>
    decreases |ids|
  {
    if ids == [] then []
    else (if ids[0] == id then [] else [ids[0]]) + Without(ids[1..], id)
  }

  function Apply(s: System, step: Step): System
    requires Enabled(s, step)
  {
    match step
    case Fetch(id, mode, initial, claimed) =>
      var (doc', outcome) := InitReply(s.doc, mode, initial, claimed, ERROR_DOES_NOT_EXIST);
      Set(s.(doc := doc'), id,
          Client(if outcome.Welcome? then Fetched(outcome.offset, outcome.data) else Gone, 0, []))
    case Greet(id) =>
      var c := s.clients[id];
      Set(s, id, Client(Greeted, c.phase.offset + |c.phase.data|, [Told(None, false, c.phase.offset, c.phase.data)]))
    case Join(id) =>
      Set(s, id, s.clients[id].(phase := Ready)).(fifo := s.fifo + [Register(id)])
    case Append(id, offset, data, may) =>
      var payload := if may.before then data else [];
      var (doc', r) := Store.AppendDocument(s.doc, offset, payload);
      if !r.Appended? then s
      else
        var s' := s.(doc := doc', log := s.log + [Accepted(id, offset, payload)]);
        if may.after then Set(s', id, s.clients[id].(phase := Accepting(|s.log|)))
        else if !may.again then s'
        else Set(s', id, s.clients[id].(phase := Gone)).(fifo := s.fifo + [Unregister(id)])  // no error to panic with
    case QueueAck(id) =>
      var c := s.clients[id];
      var a := s.log[c.phase.k];
      Set(s, id, c.(phase := Acknowledged(c.phase.k), told := c.told + [Told(Some(c.phase.k), true, a.offset, a.data)]))
    case SetLastEnd(id) =>
      var c := s.clients[id];
      Set(s, id, c.(phase := Marking(c.phase.k), lastEnd := End(s.log[c.phase.k])))
    case CallHub(id) =>
      var c := s.clients[id];
      Set(s, id, c.(phase := Ready)).(fifo := s.fifo + [Deliver(c.phase.k)])
    case Leave(id) =>
      Set(s, id, s.clients[id].(phase := Gone)).(fifo := s.fifo + [Unregister(id)])
    case HubTake =>
      var s' := s.(fifo := s.fifo[1..]);
      (match s.fifo[0]
       case Register(id) => s'.(members := s.members + [id])
       case Unregister(id) => s'.(members := Without(s.members, id))
       case Deliver(k) => s'.(loop := Some(Loop(k, s.members, Fresh))))
    case HubCheck =>
      var l := s.loop.value;
      var a := s.log[l.k];
      if l.todo[0] == a.source || a.offset < s.clients[l.todo[0]].lastEnd
      then s.(loop := Some(l.(todo := l.todo[1..])))
      else s.(loop := Some(l.(stage := Checked)))
    case HubMark =>
      var l := s.loop.value;
      Set(s, l.todo[0], s.clients[l.todo[0]].(lastEnd := End(s.log[l.k]))).(loop := Some(l.(stage := Marked)))
    case HubQueue =>
      var l := s.loop.value;
      var a := s.log[l.k];
      var c := s.clients[l.todo[0]];
      Set(s, l.todo[0], c.(told := c.told + [Told(Some(l.k), false, a.offset, a.data)]))
        .(loop := Some(Loop(l.k, l.todo[1..], Fresh)))
    case HubDone => s.(loop := None)
  }

  ghost predicate ValidRun(s: System, steps: seq<Step>)
    decreases |steps|
  {
    steps == [] || (Enabled(s, steps[0]) && ValidRun(Apply(s, steps[0]), steps[1..]))
  }

  ghost function Run(s: System, steps: seq<Step>): System
    requires ValidRun(s, steps)
    decreases |steps|
  {
    if steps == [] then s else Run(Apply(s, steps[0]), steps[1..])
  }

  // ----- The invariant ------------------------------------------------------------------

  predicate Slice(doc: Option<Bytes>, offset: nat, data: Bytes) {
    doc.Some? && offset + |data| <= |doc.value| && doc.value[offset..offset + |data|] == data
  }

  /** Accepted appends are slices of the document, one behind the other. */
  ghost predicate LogInv(s: System) {
    && (forall k :: 0 <= k < |s.log| ==> Slice(s.doc, s.log[k].offset, s.log[k].data))
    && (forall j, k :: 0 <= j < k < |s.log| ==> End(s.log[j]) <= s.log[k].offset)
  }

  predicate InHand(p: Phase, k: nat) {
    (p.Accepting? || p.Acknowledged? || p.Marking?) && p.k == k
  }

  /** Append k is still with the goroutine of the client that sent it. */
  predicate Held(s: System, k: nat)
    requires k < |s.log|
  {
    s.log[k].source in s.clients && InHand(s.clients[s.log[k].source].phase, k)
  }

  ghost predicate HubInv(s: System) {
    && Distinct(s.fifo)
    && Distinct(s.members)
    && (forall k: nat :: Deliver(k) in s.fifo ==> k < |s.log| && !Held(s, k))
    && (forall id :: Register(id) in s.fifo ==> Joined(s, id) && id !in s.members)
    && (forall id :: Unregister(id) in s.fifo ==> id in s.clients && s.clients[id].phase.Gone?)
    && (forall id :: id in s.members ==> Joined(s, id))
    && (s.loop.Some? ==>
          var l := s.loop.value;
          && l.k < |s.log| && !Held(s, l.k) && Deliver(l.k) !in s.fifo
          && Distinct(l.todo)
          && (forall id :: id in l.todo ==> Joined(s, id))
          && (l.stage != Fresh ==> l.todo != []))
  }

  predicate Joined(s: System, id: ClientId) {
    id in s.clients && s.clients[id].told != [] && !s.clients[id].phase.Greeted?
  }

  /** Where the snapshot of a greeted client ends. */
  function SnapshotEnd(c: Client): nat
    requires c.told != []
  {
    c.told[0].offset + |c.told[0].data|
  }

  /** Nobody will tell `id` of append k any more. */
  predicate Spent(s: System, id: ClientId, k: nat)
    requires k < |s.log|
  {
    && !Held(s, k)
    && Deliver(k) !in s.fifo
    && (s.loop.Some? && s.loop.value.k == k ==> id !in s.loop.value.todo)
  }

  /** The hub has decided to tell `id` of the append at hand, and has not done so yet. */
  predicate Serving(s: System, id: ClientId) {
    s.loop.Some? && s.loop.value.stage != Fresh && s.loop.value.todo != [] && s.loop.value.todo[0] == id
  }

  ghost predicate ClientInv(s: System, id: ClientId, c: Client) {
    if c.told == [] then
      && (c.phase.Fetched? || c.phase.Gone?)
      && (c.phase.Fetched? ==> Slice(s.doc, c.phase.offset, c.phase.data))
    else
      && !c.phase.Fetched?
      && c.told[0].index.None?
      && Slice(s.doc, c.told[0].offset, c.told[0].data)
      && SnapshotEnd(c) <= c.lastEnd
      && (forall k: nat :: InHand(c.phase, k) ==> k < |s.log| && s.log[k].source == id && SnapshotEnd(c) <= s.log[k].offset)
      && (forall i :: 1 <= i < |c.told| ==> TellInv(s, id, c, c.told[i]))
      && (forall i, j :: 1 <= i < j < |c.told| ==> c.told[i].index != c.told[j].index)
      && (Serving(s, id) ==>
            s.loop.value.k < |s.log| && SnapshotEnd(c) <= s.log[s.loop.value.k].offset && s.log[s.loop.value.k].source != id)
  }

  /** A told range is an accepted append behind the snapshot that nobody will tell the client again. */
  ghost predicate TellInv(s: System, id: ClientId, c: Client, t: Told)
    requires c.told != []
  {
    && t.index.Some? && t.index.value < |s.log|
    && var a := s.log[t.index.value];
       && t.offset == a.offset && t.data == a.data && SnapshotEnd(c) <= a.offset
       && t.own == (a.source == id)
       && (if t.own then c.phase != Accepting(t.index.value) else Spent(s, id, t.index.value))
  }

  ghost predicate ClientsInv(s: System) {
    forall id :: id in s.clients ==> ClientInv(s, id, s.clients[id])
  }

  ghost predicate Inv(s: System) {
    LogInv(s) && HubInv(s) && ClientsInv(s)
  }

  /** The document and the log have at most grown. */
  ghost predicate Grown(s: System, s': System) {
    && |s.log| <= |s'.log|
    && (forall k :: 0 <= k < |s.log| ==> s'.log[k] == s.log[k])
    && (s.doc.Some? ==> s'.doc.Some? && s.doc.value <= s'.doc.value)
  }

  lemma {:induction false} SliceStays(s: System, s': System, offset: nat, data: Bytes)
    requires Grown(s, s') && Slice(s.doc, offset, data)
    ensures Slice(s'.doc, offset, data)
  {
    assert s.doc.value[offset..offset + |data|] == s'.doc.value[offset..offset + |data|];
  }

  /** A client that is told nothing new keeps its invariant. */
  lemma {:induction false} ClientStays(s: System, s': System, id: ClientId)
    requires id in s.clients && ClientInv(s, id, s.clients[id]) && Grown(s, s') && id in s'.clients
    requires var c, c' := s.clients[id], s'.clients[id];
             && c'.told == c.told && (c.told != [] ==> SnapshotEnd(c) <= c'.lastEnd)
             && (c'.phase == c.phase ||
                 (c.told != [] && !c'.phase.Fetched? && !c'.phase.Accepting? &&
                  forall k: nat :: InHand(c'.phase, k) ==> InHand(c.phase, k)))
    requires forall k :: 0 <= k < |s.log| && Spent(s, id, k) ==> Spent(s', id, k)
    requires Serving(s', id) && s'.clients[id].told != [] ==>
               && s'.loop.value.k < |s'.log| && s'.log[s'.loop.value.k].source != id
               && SnapshotEnd(s'.clients[id]) <= s'.log[s'.loop.value.k].offset
    ensures ClientInv(s', id, s'.clients[id])
  {
    var c, c' := s.clients[id], s'.clients[id];
    if c.told == [] {
      if c.phase.Fetched? { SliceStays(s, s', c.phase.offset, c.phase.data); }
    } else {
      SliceStays(s, s', c.told[0].offset, c.told[0].data);
      forall i | 1 <= i < |c.told| ensures TellInv(s', id, c', c.told[i]) {
        assert TellInv(s, id, c, c.told[i]);
      }
    }
  }

  // ----- Steps --------------------------------------------------------------------------

  lemma {:induction false} WithoutIsSubsequence(ids: seq<ClientId>, id: ClientId)
    requires Distinct(ids)
    ensures Distinct(Without(ids, id))
    ensures forall x :: x in Without(ids, id) <==> x in ids && x != id
    decreases |ids|
  {
    if ids != [] {
      assert ids == [ids[0]] + ids[1..];
      assert forall i :: 0 <= i < |ids[1..]| ==> ids[1..][i] == ids[i + 1];
      WithoutIsSubsequence(ids[1..], id);
      var rest := Without(ids[1..], id);
      assert ids[0] !in rest;
      assert forall i :: 0 <= i < |rest| ==> ([ids[0]] + rest)[i + 1] == rest[i];
    }
  }

  lemma {:induction false} FetchKeepsInv(s: System, step: Step)
    requires Inv(s) && step.Fetch? && Enabled(s, step)
    ensures Inv(Apply(s, step))
  {
    var s' := Apply(s, step);
    assert s.doc.Some? ==> s'.doc == s.doc;
    assert HubInv(s') by {
      assert forall id :: Joined(s, id) ==> Joined(s', id);
      assert forall k :: 0 <= k < |s.log| ==> Held(s', k) == Held(s, k);
    }
    forall id | id in s'.clients ensures ClientInv(s', id, s'.clients[id]) {
      if id != step.id {
        ClientStays(s, s', id);
      }
    }
  }

  /** The database has accepted an append, and its sender goes on, or stops. */
  predicate Takes(s: System, s': System, a: Accepted, p: Phase) {
    && In(s, a.source) && s.clients[a.source].phase.Ready?
    && s.doc.Some? && a.offset == |s.doc.value|
    && (p == Accepting(|s.log|) || p == Ready || p == Gone)
    && s' == System(Some(s.doc.value + a.data), s.log + [a],
                    s.clients[a.source := s.clients[a.source].(phase := p)],
                    if p == Gone then s.fifo + [Unregister(a.source)] else s.fifo, s.members, s.loop)
  }

  lemma {:induction false} AppendTakes(s: System, step: Step)
    requires step.Append? && Enabled(s, step) && Apply(s, step).log != s.log
    ensures var s' := Apply(s, step);
            |s'.log| == |s.log| + 1 && step.id in s'.clients && s'.log[|s.log|].source == step.id &&
            Takes(s, s', s'.log[|s.log|], s'.clients[step.id].phase)
  {
    var c := s.clients[step.id];
    assert c.(phase := Apply(s, step).clients[step.id].phase) == Apply(s, step).clients[step.id];
  }

  lemma {:induction false} AppendKeepsInv(s: System, step: Step)
    requires Inv(s) && step.Append? && Enabled(s, step)
    ensures Inv(Apply(s, step))
  {
    var s' := Apply(s, step);
    if s'.log != s.log {
      AppendTakes(s, step);
      var a, p := s'.log[|s.log|], s'.clients[step.id].phase;
      TakingKeepsLog(s, s', a, p);
      TakingKeepsHub(s, s', a, p);
      TakingKeepsClients(s, s', a, p);
    }
  }

  lemma {:induction false} TakingKeepsLog(s: System, s': System, a: Accepted, p: Phase)
    requires LogInv(s) && Takes(s, s', a, p)
    ensures LogInv(s') && Grown(s, s')
  {
    forall k | 0 <= k < |s.log| ensures Slice(s'.doc, s.log[k].offset, s.log[k].data) {
      SliceStays(s, s', s.log[k].offset, s.log[k].data);
    }
  }

  lemma {:induction false} TakingKeepsHeld(s: System, s': System, a: Accepted, p: Phase)
    requires Takes(s, s', a, p)
    ensures forall k :: 0 <= k < |s.log| ==> Held(s', k) == Held(s, k)
  {
  }

  lemma {:induction false} TakingKeepsHub(s: System, s': System, a: Accepted, p: Phase)
    requires HubInv(s) && Takes(s, s', a, p)
    ensures HubInv(s')
  {
    assert forall id :: Joined(s, id) ==> Joined(s', id);
    TakingKeepsHeld(s, s', a, p);
  }

  lemma {:induction false} TakingKeepsSender(s: System, s': System, a: Accepted, p: Phase)
    requires Inv(s) && Takes(s, s', a, p) && Grown(s, s')
    ensures ClientInv(s', a.source, s'.clients[a.source])
  {
    var c := s.clients[a.source];
    assert ClientInv(s, a.source, c);
    TakingKeepsHeld(s, s', a, p);
    SliceStays(s, s', c.told[0].offset, c.told[0].data);
    forall i | 1 <= i < |c.told| ensures TellInv(s', a.source, s'.clients[a.source], c.told[i]) {
      assert TellInv(s, a.source, c, c.told[i]);
    }
  }

  lemma {:induction false} TakingKeepsClients(s: System, s': System, a: Accepted, p: Phase)
    requires Inv(s) && Takes(s, s', a, p) && Grown(s, s')
    ensures ClientsInv(s')
  {
    TakingKeepsSender(s, s', a, p);
    TakingKeepsHeld(s, s', a, p);
    forall id | id in s'.clients && id != a.source ensures ClientInv(s', id, s'.clients[id]) {
      ClientStays(s, s', id);
    }
  }

  /** The hub after a step of client `id` that asks it for at most one thing. */
  lemma {:induction false} LocalKeepsHub(s: System, s': System, id: ClientId, ask: Option<Closure>)
    requires LogInv(s) && HubInv(s) && id in s.clients && id in s'.clients
    requires s' == Set(s, id, s'.clients[id]).(fifo := if ask.Some? then s.fifo + [ask.value] else s.fifo)
    requires forall k: nat :: InHand(s'.clients[id].phase, k) ==> InHand(s.clients[id].phase, k)
    requires Joined(s, id) ==> Joined(s', id)
    requires s.clients[id].phase.Gone? ==> s'.clients[id].phase.Gone?
    requires ask.Some? ==>
               && ask.value !in s.fifo
               && match ask.value
                  case Register(x) => x == id && Joined(s', id) && id !in s.members
                  case Unregister(x) => x == id && s'.clients[id].phase.Gone?
                  case Deliver(k) => k < |s.log| && s.log[k].source == id && Held(s, k) && !InHand(s'.clients[id].phase, k)
    ensures HubInv(s')
  {
    assert forall k :: 0 <= k < |s.log| && Held(s', k) ==> Held(s, k);
    assert forall x :: Joined(s, x) ==> Joined(s', x);
    assert forall c :: c in s'.fifo ==> c in s.fifo || ask == Some(c);
  }

  predicate IsLocal(step: Step) {
    step.Greet? || step.Join? || step.QueueAck? || step.SetLastEnd? || step.CallHub? || step.Leave?
  }

  /** What a client's own step asks of the hub. */
  function Ask(s: System, step: Step): Option<Closure>
    requires IsLocal(step) && Enabled(s, step)
  {
    match step
    case Join(id) => Some(Register(id))
    case Leave(id) => Some(Unregister(id))
    case CallHub(id) => Some(Deliver(s.clients[id].phase.k))
    case _ => None
  }

  lemma {:induction false} LocalStep(s: System, step: Step)
    requires IsLocal(step) && Enabled(s, step)
    ensures var s' := Apply(s, step);
            && step.id in s'.clients
            && s' == Set(s, step.id, s'.clients[step.id])
                       .(fifo := if Ask(s, step).Some? then s.fifo + [Ask(s, step).value] else s.fifo)
            && (forall k: nat :: InHand(s'.clients[step.id].phase, k) ==> InHand(s.clients[step.id].phase, k))
            && (s.clients[step.id].phase.Gone? ==> s'.clients[step.id].phase.Gone?)
  {
  }

  lemma {:induction false} LocalAskIsNew(s: System, step: Step)
    requires Inv(s) && IsLocal(step) && Enabled(s, step) && Ask(s, step).Some?
    ensures Ask(s, step).value !in s.fifo
    ensures step.CallHub? ==>
              var k := s.clients[step.id].phase.k;
              k < |s.log| && Held(s, k) && s.log[k].source == step.id && !InHand(Apply(s, step).clients[step.id].phase, k)
    ensures step.Join? ==> step.id !in s.members
    ensures Joined(Apply(s, step), step.id)
  {
    var c := s.clients[step.id];
    assert ClientInv(s, step.id, c);
    if step.CallHub? {
      assert InHand(c.phase, c.phase.k);
    }
  }

  lemma {:induction false} LocalKeepsInv(s: System, step: Step)
    requires Inv(s) && IsLocal(step) && Enabled(s, step)
    ensures Inv(Apply(s, step))
  {
    var s' := Apply(s, step);
    LocalStep(s, step);
    if Ask(s, step).Some? {
      LocalAskIsNew(s, step);
    }
    LocalKeepsHub(s, s', step.id, Ask(s, step));
    LocalKeepsOthers(s, s', step.id);
    LocalKeepsClient(s, step);
  }

  lemma {:induction false} LocalKeepsClient(s: System, step: Step)
    requires Inv(s) && IsLocal(step) && Enabled(s, step)
    ensures ClientInv(Apply(s, step), step.id, Apply(s, step).clients[step.id])
  {
    if step.QueueAck? {
      AckKeepsClient(s, step);
    } else if step.Greet? {
      GreetKeepsClient(s, step);
    } else {
      PhaseKeepsClient(s, step);
    }
  }

  lemma {:induction false} GreetKeepsClient(s: System, step: Step)
    requires Inv(s) && step.Greet? && Enabled(s, step)
    ensures ClientInv(Apply(s, step), step.id, Apply(s, step).clients[step.id])
  {
    assert ClientInv(s, step.id, s.clients[step.id]);
    assert !Joined(s, step.id);
    assert !Serving(s, step.id);
  }

  lemma {:induction false} PhaseKeepsClient(s: System, step: Step)
    requires Inv(s) && IsLocal(step) && !step.QueueAck? && !step.Greet? && Enabled(s, step)
    ensures ClientInv(Apply(s, step), step.id, Apply(s, step).clients[step.id])
  {
    var s' := Apply(s, step);
    var c, c' := s.clients[step.id], s'.clients[step.id];
    assert ClientInv(s, step.id, c);
    assert c.told != [] && c'.told == c.told;
    if step.CallHub? || step.SetLastEnd? {
      assert InHand(c.phase, c.phase.k);
      assert Held(s, c.phase.k);
    }
    LocalStep(s, step);
    assert forall k :: 0 <= k < |s.log| && Spent(s, step.id, k) ==> Spent(s', step.id, k);
    ClientStays(s, s', step.id);
  }

  lemma {:induction false} LocalKeepsOthers(s: System, s': System, id: ClientId)
    requires LogInv(s) && ClientsInv(s) && id in s.clients && id in s'.clients
    requires s' == Set(s, id, s'.clients[id]).(fifo := s'.fifo)
    requires forall k: nat :: InHand(s'.clients[id].phase, k) ==> InHand(s.clients[id].phase, k)
    requires forall c :: c in s'.fifo ==> c in s.fifo || (c.Deliver? ==> c.k < |s.log| && Held(s, c.k))
    ensures forall other :: other in s'.clients && other != id ==> ClientInv(s', other, s'.clients[other])
  {
    forall other | other in s'.clients && other != id ensures ClientInv(s', other, s'.clients[other]) {
      assert forall k :: 0 <= k < |s.log| && Held(s', k) ==> Held(s, k);
      assert ClientInv(s, other, s.clients[other]);
      ClientStays(s, s', other);
    }
  }

  lemma {:induction false} AckKeepsClient(s: System, step: Step)
    requires Inv(s) && step.QueueAck? && Enabled(s, step)
    ensures ClientInv(Apply(s, step), step.id, Apply(s, step).clients[step.id])
  {
    var s' := Apply(s, step);
    var id := step.id;
    var c, c' := s.clients[id], s'.clients[id];
    assert ClientInv(s, id, c);
    assert InHand(c.phase, c.phase.k);
    assert forall k :: 0 <= k < |s.log| && Held(s', k) ==> Held(s, k);
    forall i | 1 <= i < |c'.told| ensures TellInv(s', id, c', c'.told[i]) {
      if i < |c.told| {
        assert c'.told[i] == c.told[i];
        assert TellInv(s, id, c, c.told[i]);
      }
    }
    forall i, j | 1 <= i < j < |c'.told| ensures c'.told[i].index != c'.told[j].index {
      assert TellInv(s, id, c, c.told[i]);
    }
  }

  // ----- Steps of the hub ---------------------------------------------------------------

  lemma {:induction false} HubTakeKeepsInv(s: System)
    requires Inv(s) && Enabled(s, HubTake)
    ensures Inv(Apply(s, HubTake))
  {
    var s' := Apply(s, HubTake);
    assert s.fifo == [s.fifo[0]] + s'.fifo;
    assert forall c :: c in s'.fifo ==> c in s.fifo && c != s.fifo[0];
    WithoutIsSubsequence(s.members, if s.fifo[0].Unregister? then s.fifo[0].id else "");
    assert s.fifo[0] in s.fifo;
    HubTakeKeepsHub(s);
    forall id | id in s'.clients ensures ClientInv(s', id, s'.clients[id]) {
      assert ClientInv(s, id, s.clients[id]);
      assert forall k :: 0 <= k < |s.log| ==> Held(s', k) == Held(s, k);
      ClientStays(s, s', id);
    }
  }

  lemma {:induction false} TailDistinct<T>(xs: seq<T>)
    requires Distinct(xs) && xs != []
    ensures Distinct(xs[1..]) && xs[0] !in xs[1..]
    ensures forall x :: x in xs <==> x == xs[0] || x in xs[1..]
  {
    assert xs == [xs[0]] + xs[1..];
    assert forall i :: 0 <= i < |xs[1..]| ==> xs[1..][i] == xs[i + 1];
  }

  lemma {:induction false} HubTakeKeepsHub(s: System)
    requires Inv(s) && Enabled(s, HubTake)
    ensures HubInv(Apply(s, HubTake))
  {
    var s' := Apply(s, HubTake);
    TailDistinct(s.fifo);
    assert s.fifo[0] in s.fifo;
    WithoutIsSubsequence(s.members, if s.fifo[0].Unregister? then s.fifo[0].id else "");
    assert forall id :: Joined(s', id) == Joined(s, id);
    assert forall k :: 0 <= k < |s.log| ==> Held(s', k) == Held(s, k);
  }

  lemma {:induction false} HubCheckKeepsInv(s: System)
    requires Inv(s) && Enabled(s, HubCheck)
    ensures Inv(Apply(s, HubCheck))
  {
    var s' := Apply(s, HubCheck);
    var todo := s.loop.value.todo;
    TailDistinct(todo);
    assert forall id :: Joined(s', id) == Joined(s, id);
    assert forall k :: 0 <= k < |s.log| ==> Held(s', k) == Held(s, k);
    forall id | id in s'.clients ensures ClientInv(s', id, s'.clients[id]) {
      assert ClientInv(s, id, s.clients[id]);
      assert Joined(s, todo[0]);
      ClientStays(s, s', id);
    }
  }

  lemma {:induction false} HubMarkKeepsInv(s: System)
    requires Inv(s) && Enabled(s, HubMark)
    ensures Inv(Apply(s, HubMark))
  {
    var s' := Apply(s, HubMark);
    var todo := s.loop.value.todo;
    assert forall id :: Joined(s', id) == Joined(s, id);
    assert forall k :: 0 <= k < |s.log| ==> Held(s', k) == Held(s, k);
    forall id | id in s'.clients ensures ClientInv(s', id, s'.clients[id]) {
      assert ClientInv(s, id, s.clients[id]);
      assert Joined(s, todo[0]);
      ClientStays(s, s', id);
    }
  }

  lemma {:induction false} HubQueueKeepsInv(s: System)
    requires Inv(s) && Enabled(s, HubQueue)
    ensures Inv(Apply(s, HubQueue))
  {
    var s' := Apply(s, HubQueue);
    var todo := s.loop.value.todo;
    TailDistinct(todo);
    assert forall id :: Joined(s, id) ==> Joined(s', id);
    assert forall k :: 0 <= k < |s.log| ==> Held(s', k) == Held(s, k);
    forall id | id in s'.clients && id != todo[0] ensures ClientInv(s', id, s'.clients[id]) {
      assert ClientInv(s, id, s.clients[id]);
      ClientStays(s, s', id);
    }
    HubQueueKeepsClient(s);
  }

  lemma {:induction false} HubQueueKeepsClient(s: System)
    requires Inv(s) && Enabled(s, HubQueue)
    ensures var id := s.loop.value.todo[0];
            ClientInv(Apply(s, HubQueue), id, Apply(s, HubQueue).clients[id])
  {
    var s' := Apply(s, HubQueue);
    var id := s.loop.value.todo[0];
    var c, c' := s.clients[id], s'.clients[id];
    TailDistinct(s.loop.value.todo);
    assert Joined(s, id) && ClientInv(s, id, c);
    assert forall k :: 0 <= k < |s.log| ==> Held(s', k) == Held(s, k);
    forall i | 1 <= i < |c'.told| ensures TellInv(s', id, c', c'.told[i]) {
      if i < |c.told| {
        assert c'.told[i] == c.told[i];
        assert TellInv(s, id, c, c.told[i]);
      }
    }
    forall i, j | 1 <= i < j < |c'.told| ensures c'.told[i].index != c'.told[j].index {
      assert TellInv(s, id, c, c.told[i]);
    }
  }

  lemma {:induction false} HubDoneKeepsInv(s: System)
    requires Inv(s) && Enabled(s, HubDone)
    ensures Inv(Apply(s, HubDone))
  {
    var s' := Apply(s, HubDone);
    assert forall id :: Joined(s', id) == Joined(s, id);
    assert forall k :: 0 <= k < |s.log| ==> Held(s', k) == Held(s, k);
    forall id | id in s'.clients ensures ClientInv(s', id, s'.clients[id]) {
      assert ClientInv(s, id, s.clients[id]);
      ClientStays(s, s', id);
    }
  }

  lemma {:induction false} StepKeepsInv(s: System, step: Step)
    requires Inv(s) && Enabled(s, step)
    ensures Inv(Apply(s, step))
  {
    match step
    case Fetch(_, _, _, _) => FetchKeepsInv(s, step);
    case Append(_, _, _, _) => AppendKeepsInv(s, step);
    case HubTake => HubTakeKeepsInv(s);
    case HubCheck => HubCheckKeepsInv(s);
    case HubMark => HubMarkKeepsInv(s);
    case HubQueue => HubQueueKeepsInv(s);
    case HubDone => HubDoneKeepsInv(s);
    case _ => LocalKeepsInv(s, step);
  }

  lemma {:induction false} RunKeepsInv(s: System, steps: seq<Step>)
    requires Inv(s) && ValidRun(s, steps)
    ensures Inv(Run(s, steps))
    decreases |steps|
  {
    if steps != [] {
      StepKeepsInv(s, steps[0]);
      RunKeepsInv(Apply(s, steps[0]), steps[1..]);
    }
  }
}
