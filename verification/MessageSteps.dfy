/**
 One step of ProtocolRuns, which handles a whole message or closure, as a sequence of orderly single
 calls of FineProtocol, with the same document, clients, members and queue of the hub at the end; and
 every client has then been told one range after the other, up to its end.
 */
module MessageSteps {
  import opened Base
  import opened Protocol
  import C = ProtocolRuns
  import F = FineProtocol
  import G = GapSteps
  import O = OrderlySteps
  import R = OrderlyRuns

  /** An orderly run of single calls from the document ends here. */
  ghost predicate Reached(doc: Option<Bytes>, f: F.System) {
    exists steps ::
      F.ValidRun(F.Start(doc), steps) && R.OrderlyRun(F.Start(doc), steps) && F.Run(F.Start(doc), steps) == f
  }

  // ----- The two states -----------------------------------------------------------------

  /** Each range starts where the one before ends. */
  predicate Seamless(told: seq<F.Told>) {
    forall i :: 0 < i < |told| ==> told[i].offset == told[i - 1].offset + |told[i - 1].data|
  }

  function EndOf(told: seq<F.Told>): nat
    requires told != []
  {
    told[|told| - 1].offset + |told[|told| - 1].data|
  }

  /**
   A connected client is between two calls, was told one range after the other up to its end, and
   the server has the same end for it; others have left.
   */
  predicate SameClient(p: C.Peer, c: F.Client) {
    if p.Online? then
      && c.phase == F.Ready && c.told != [] && Seamless(c.told)
      && EndOf(c.told) == c.lastEnd == p.conn.lastEnd
    else c.phase == F.Gone
  }

  predicate SameClosure(log: seq<F.Accepted>, c: C.Closure, d: F.Closure) {
    match c
    case Register(id) => d == F.Register(id)
    case Unregister(id) => d == F.Unregister(id)
    case Deliver(post) => d.Deliver? && d.k < |log| && log[d.k] == F.Accepted(post.source, post.offset, post.data)
  }

  predicate SameHub(log: seq<F.Accepted>, hub: seq<C.Closure>, fifo: seq<F.Closure>) {
    |hub| == |fifo| && forall i :: 0 <= i < |hub| ==> SameClosure(log, hub[i], fifo[i])
  }

  /** The same document, clients, members and queue of the hub, with nobody in the middle of anything. */
  ghost predicate Same(s: C.System, f: F.System) {
    && f.doc == s.doc && f.loop == None
    && f.clients.Keys == s.peers.Keys && (forall id :: id in s.peers ==> SameClient(s.peers[id], f.clients[id]))
    && (forall id :: id in f.members <==> id in s.members)
    && SameHub(f.log, s.hub, f.fifo)
  }

  // ----- Orderly runs -------------------------------------------------------------------

  lemma {:induction false} RunSnoc(f: F.System, steps: seq<F.Step>, step: F.Step)
    requires F.ValidRun(f, steps) && R.OrderlyRun(f, steps)
    requires F.Enabled(F.Run(f, steps), step) && O.Orderly(F.Run(f, steps), step)
    ensures F.ValidRun(f, steps + [step]) && R.OrderlyRun(f, steps + [step])
    ensures F.Run(f, steps + [step]) == F.Apply(F.Run(f, steps), step)
    decreases |steps|
  {
    if steps == [] {
      assert steps + [step] == [step] && [step][1..] == [];
    } else {
      assert (steps + [step])[1..] == steps[1..] + [step];
      RunSnoc(F.Apply(f, steps[0]), steps[1..], step);
    }
  }

  lemma {:induction false} Go(doc: Option<Bytes>, f: F.System, step: F.Step) returns (f': F.System)
    requires Reached(doc, f) && F.Enabled(f, step) && O.Orderly(f, step)
    ensures Reached(doc, f') && f' == F.Apply(f, step)
  {
    var steps :| F.ValidRun(F.Start(doc), steps) && R.OrderlyRun(F.Start(doc), steps) && F.Run(F.Start(doc), steps) == f;
    RunSnoc(F.Start(doc), steps, step);
    f' := F.Apply(f, step);
  }

  lemma {:induction false} ReachedInv(doc: Option<Bytes>, f: F.System)
    requires Reached(doc, f)
    ensures F.Inv(f)
  {
    var steps :| F.ValidRun(F.Start(doc), steps) && R.OrderlyRun(F.Start(doc), steps) && F.Run(F.Start(doc), steps) == f;
    F.RunKeepsInv(F.Start(doc), steps);
  }

  // ----- Seamless ranges ----------------------------------------------------------------

  lemma {:induction false} SeamlessCovers(told: seq<F.Told>, b: nat)
    requires told != [] && Seamless(told) && told[0].offset <= b < EndOf(told)
    ensures exists i :: 0 <= i < |told| && G.Covers(told[i], b)
    decreases |told|
  {
    var last := |told| - 1;
    if b < told[last].offset {
      SeamlessCovers(told[..last], b);
      var i :| 0 <= i < last && G.Covers(told[..last][i], b);
      assert G.Covers(told[i], b);
    } else {
      assert G.Covers(told[last], b);
    }
  }

  // ----- One message, many single calls -------------------------------------------------

  /** Nobody is joining, and nobody holds an append but possibly the client itself. */
  lemma {:induction false} NobodyJoins(s: C.System, f: F.System)
    requires Same(s, f)
    ensures !O.Joining(f)
    ensures forall j :: 0 <= j < |f.log| ==> !F.Held(f, j)
  {
    assert forall x :: x in f.clients ==> SameClient(s.peers[x], f.clients[x]);
  }

  lemma {:induction false} HubGrows(log: seq<F.Accepted>, log': seq<F.Accepted>, hub: seq<C.Closure>, fifo: seq<F.Closure>,
                                    c: C.Closure, d: F.Closure)
    requires SameHub(log, hub, fifo) && log <= log' && SameClosure(log', c, d)
    ensures SameHub(log', hub + [c], fifo + [d])
  {
  }

  /** What a new connection is sent, if it is not refused. */
  lemma {:induction false} WelcomeIs(s: C.System, step: C.Step)
    requires step.Connect? && C.Enabled(s, step) && C.Local(s, step.from) <= C.Contents(s)
    ensures var s', id := C.Apply(s, step), step.id;
            var (doc', outcome) := InitReply(s.doc, step.mode, step.initial, |C.Local(s, step.from)|, ERROR_DOES_NOT_EXIST);
            if outcome.Welcome? then
              && id in s'.peers && s'.peers[id].Online? && s'.peers[id].conn.lastEnd == outcome.offset + |outcome.data|
              && s' == C.System(doc', s.hub + [C.Register(id)], s.members, s.peers[id := s'.peers[id]])
            else s' == s
  {
    assert Wrap(|C.Local(s, step.from)|) == |C.Local(s, step.from)|;
  }

  /** The queue of the hub grows by the registration, and one client is added. */
  lemma {:induction false} SameJoins(s: C.System, s': C.System, f: F.System, f': F.System, id: ClientId)
    requires Same(s, f) && id !in s.peers && id in s'.peers && id in f'.clients
    requires s' == C.System(s'.doc, s.hub + [C.Register(id)], s.members, s.peers[id := s'.peers[id]])
    requires f' == f.(doc := s'.doc, clients := f.clients[id := f'.clients[id]], fifo := f.fifo + [F.Register(id)])
    requires SameClient(s'.peers[id], f'.clients[id])
    ensures Same(s', f')
  {
    HubGrows(f.log, f.log, s.hub, f.fifo, C.Register(id), F.Register(id));
  }

  lemma {:induction false} Fetches(doc: Option<Bytes>, f: F.System, id: ClientId, mode: nat, initial: Bytes, claimed: nat)
    returns (f': F.System)
    requires Reached(doc, f) && id !in f.clients
    requires InitReply(f.doc, mode, initial, claimed, ERROR_DOES_NOT_EXIST).1.Welcome?
    ensures Reached(doc, f')
    ensures var (doc', outcome) := InitReply(f.doc, mode, initial, claimed, ERROR_DOES_NOT_EXIST);
            f' == F.Set(f.(doc := doc'), id, F.Client(F.Fetched(outcome.offset, outcome.data), 0, []))
  {
    f' := Go(doc, f, F.Fetch(id, mode, initial, claimed));
  }

  /** Reading the document, sending the snapshot and asking to be registered. */
  lemma {:induction false} JoinsInThree(doc: Option<Bytes>, f: F.System, id: ClientId, mode: nat, initial: Bytes, claimed: nat)
    returns (f': F.System)
    requires Reached(doc, f) && id !in f.clients
    requires InitReply(f.doc, mode, initial, claimed, ERROR_DOES_NOT_EXIST).1.Welcome?
    ensures Reached(doc, f')
    ensures var (doc', outcome) := InitReply(f.doc, mode, initial, claimed, ERROR_DOES_NOT_EXIST);
            var c := F.Client(F.Ready, outcome.offset + |outcome.data|, [F.Told(None, false, outcome.offset, outcome.data)]);
            f' == f.(doc := doc', clients := f.clients[id := c], fifo := f.fifo + [F.Register(id)])
  {
    f' := Fetches(doc, f, id, mode, initial, claimed);
    f' := Go(doc, f', F.Greet(id));
    f' := Go(doc, f', F.Join(id));
  }

  lemma {:induction false} ConnectIsOrderly(doc: Option<Bytes>, s: C.System, f: F.System, step: C.Step) returns (f': F.System)
    requires Reached(doc, f) && Same(s, f) && C.Inv(s) && step.Connect? && C.Enabled(s, step)
    ensures Reached(doc, f') && Same(C.Apply(s, step), f')
  {
    WelcomeIs(s, step);
    f' := f;
    if C.Apply(s, step) != s {
      f' := JoinsInThree(doc, f, step.id, step.mode, step.initial, |C.Local(s, step.from)|);
      SameJoins(s, C.Apply(s, step), f, f', step.id);
    }
  }

  lemma {:induction false} DisconnectIsOrderly(doc: Option<Bytes>, s: C.System, f: F.System, id: ClientId) returns (f': F.System)
    requires Reached(doc, f) && Same(s, f) && C.Enabled(s, C.Disconnect(id))
    ensures Reached(doc, f') && Same(C.Apply(s, C.Disconnect(id)), f')
  {
    assert SameClient(s.peers[id], f.clients[id]);
    f' := Go(doc, f, F.Leave(id));
    HubGrows(f.log, f.log, s.hub, f.fifo, C.Unregister(id), F.Unregister(id));
  }

  /** What the client sends and receives, and what it may do, are no calls of the server. */
  lemma {:induction false} OutsideStep(s: C.System, f: F.System, step: C.Step)
    requires Same(s, f) && C.Enabled(s, step) && (step.Send? || step.Arrive? || step.SetPermission?)
    ensures Same(C.Apply(s, step), f)
  {
    assert SameClient(s.peers[step.id], f.clients[step.id]);
  }

  /** Appending to the document and answering. */
  lemma {:induction false} AcceptsAndAnswers(doc: Option<Bytes>, f: F.System, id: ClientId, data: Bytes) returns (f': F.System)
    requires Reached(doc, f) && id in f.clients && f.clients[id].phase == F.Ready
    requires f.doc.Some? && (f.clients[id].told != [] ==> G.ToldUpTo(f.clients[id], |f.doc.value|)) && !O.Joining(f)
    ensures Reached(doc, f')
    ensures var n, k := |f.doc.value|, |f.log|;
            var c := f.clients[id].(phase := F.Acknowledged(k), told := f.clients[id].told + [F.Told(Some(k), true, n, data)]);
            f' == F.Set(f, id, c).(doc := Some(f.doc.value + data), log := f.log + [F.Accepted(id, n, data)])
  {
    f' := Go(doc, f, F.Append(id, |f.doc.value|, data, F.Reads(true, true, true)));
    f' := Go(doc, f', F.QueueAck(id));
  }

  /** Moving lastEnd and asking the hub to pass the append on. */
  lemma {:induction false} MarksAndCalls(doc: Option<Bytes>, f: F.System, id: ClientId, k: nat) returns (f': F.System)
    requires Reached(doc, f) && id in f.clients && f.clients[id].phase == F.Acknowledged(k) && k < |f.log|
    requires forall j :: 0 <= j < k ==> !F.Held(f, j)
    ensures Reached(doc, f')
    ensures f' == F.Set(f, id, f.clients[id].(phase := F.Ready, lastEnd := F.End(f.log[k]))).(fifo := f.fifo + [F.Deliver(k)])
  {
    f' := Go(doc, f, F.SetLastEnd(id));
    assert forall j :: 0 <= j < k ==> F.Held(f', j) == F.Held(f, j);
    f' := Go(doc, f', F.CallHub(id));
  }

  /** The whole handling of an append that is accepted. */
  lemma {:induction false} AppendsInFour(doc: Option<Bytes>, f: F.System, id: ClientId, data: Bytes) returns (f': F.System)
    requires Reached(doc, f) && id in f.clients && f.clients[id].phase == F.Ready && f.clients[id].told != []
    requires f.doc.Some? && G.ToldUpTo(f.clients[id], |f.doc.value|)
    requires !O.Joining(f) && forall j :: 0 <= j < |f.log| ==> !F.Held(f, j)
    ensures Reached(doc, f')
    ensures var n, k := |f.doc.value|, |f.log|;
            var c := f.clients[id].(lastEnd := n + |data|, told := f.clients[id].told + [F.Told(Some(k), true, n, data)]);
            f' == f.(doc := Some(f.doc.value + data), log := f.log + [F.Accepted(id, n, data)],
                     clients := f.clients[id := c], fifo := f.fifo + [F.Deliver(k)])
  {
    f' := AcceptsAndAnswers(doc, f, id, data);
    assert forall j :: 0 <= j < |f.log| ==> f'.log[j] == f.log[j] && !F.Held(f, j);
    f' := MarksAndCalls(doc, f', id, |f.log|);
  }

  /** The log grows by one append, with its call to the hub. */
  lemma {:induction false} SameAppends(s: C.System, s': C.System, f: F.System, f': F.System, id: ClientId, n: nat, data: Bytes)
    requires Same(s, f) && id in s.peers && id in s'.peers && id in f'.clients
    requires s' == s.(doc := s'.doc, hub := s.hub + [C.Deliver(Post(id, n, data))], peers := s.peers[id := s'.peers[id]])
    requires f' == f.(doc := s'.doc, log := f.log + [F.Accepted(id, n, data)],
                      clients := f.clients[id := f'.clients[id]], fifo := f.fifo + [F.Deliver(|f.log|)])
    requires SameClient(s'.peers[id], f'.clients[id])
    ensures Same(s', f')
  {
    HubGrows(f.log, f'.log, s.hub, f.fifo, C.Deliver(Post(id, n, data)), F.Deliver(|f.log|));
  }

  /** An append that is refused, or accepted without its data, concerns nobody else. */
  lemma {:induction false} SameRefuses(s: C.System, s': C.System, f: F.System, f': F.System, id: ClientId)
    requires Same(s, f) && id in s.peers && id in s'.peers && SameClient(s'.peers[id], f.clients[id])
    requires s' == s.(peers := s.peers[id := s'.peers[id]])
    requires f' == f.(log := f'.log) && f.log <= f'.log
    ensures Same(s', f')
  {
  }

  /** A client whose append starts at the end of the document has been told of all of it. */
  lemma {:induction false} WriterIsTold(s: C.System, f: F.System, id: ClientId)
    requires Same(s, f) && C.Inv(s) && C.Enabled(s, C.Handle(id))
    requires s.doc.Some? && s.peers[id].uplink[0].offset == |s.doc.value|
    ensures f.clients[id].lastEnd == |s.doc.value| && G.ToldUpTo(f.clients[id], |s.doc.value|)
  {
    var c := f.clients[id];
    assert SameClient(s.peers[id], c);
    C.OldestIsNext(s.doc.value, C.Pending(s.hub, id, id in s.members), s.peers[id]);
    forall b: nat | c.told[0].offset <= b < |s.doc.value| ensures G.CoversSome(c, b) {
      SeamlessCovers(c.told, b);
    }
  }

  /** The connection of a client whose append of `data` at `n` was accepted. */
  function Accepted(p: C.Peer, n: nat, data: Bytes): C.Peer
    requires p.Online? && p.uplink != []
  {
    p.(conn := Enqueue(p.conn, AckNackMsg(ACK, n + |data|)).(lastEnd := n + |data|), uplink := p.uplink[1..])
  }

  lemma {:induction false} SameWriter(p: C.Peer, c: F.Client, n: nat, data: Bytes, k: nat)
    requires p.Online? && p.uplink != [] && SameClient(p, c) && c.lastEnd == n
    ensures SameClient(Accepted(p, n, data), c.(lastEnd := n + |data|, told := c.told + [F.Told(Some(k), true, n, data)]))
  {
  }

  lemma {:induction false} AcceptedIsOrderly(doc: Option<Bytes>, s: C.System, s': C.System, f: F.System, id: ClientId, data: Bytes)
    returns (f': F.System)
    requires Reached(doc, f) && Same(s, f) && id in s.peers && s.peers[id].Online? && s.peers[id].uplink != []
    requires s.doc.Some? && f.clients[id].lastEnd == |s.doc.value| && G.ToldUpTo(f.clients[id], |s.doc.value|)
    requires s' == s.(doc := Some(s.doc.value + data), hub := s.hub + [C.Deliver(Post(id, |s.doc.value|, data))],
                      peers := s.peers[id := Accepted(s.peers[id], |s.doc.value|, data)])
    ensures Reached(doc, f') && Same(s', f')
  {
    var n := |s.doc.value|;
    assert SameClient(s.peers[id], f.clients[id]);
    NobodyJoins(s, f);
    f' := AppendsInFour(doc, f, id, data);
    SameWriter(s.peers[id], f.clients[id], n, data, |f.log|);
    SameAppends(s, s', f, f', id, n, data);
  }

  /** What handling an append does, accepted or not. */
  lemma {:induction false} HandlingIs(s: C.System, id: ClientId)
    requires C.Enabled(s, C.Handle(id)) && s.doc.Some?
    ensures var s', p, n := C.Apply(s, C.Handle(id)), s.peers[id], |s.doc.value|;
            && id in s'.peers && s'.peers[id].Online?
            && if p.uplink[0].offset == n && p.conn.canWrite then
                 s' == s.(doc := Some(s.doc.value + p.uplink[0].data),
                          hub := s.hub + [C.Deliver(Post(id, n, p.uplink[0].data))],
                          peers := s.peers[id := Accepted(p, n, p.uplink[0].data)])
               else s' == s.(peers := s.peers[id := s'.peers[id]]) && s'.peers[id].conn.lastEnd == p.conn.lastEnd
  {
    C.HandleCases(s, id);
  }

  lemma {:induction false} RefusedIsOrderly(doc: Option<Bytes>, s: C.System, s': C.System, f: F.System, id: ClientId, request: Request)
    returns (f': F.System)
    requires Reached(doc, f) && Same(s, f) && C.IsOnline(s, id) && C.IsOnline(s', id) && s.doc.Some?
    requires s' == s.(peers := s.peers[id := s'.peers[id]]) && s'.peers[id].conn.lastEnd == s.peers[id].conn.lastEnd
    ensures Reached(doc, f') && Same(s', f')
  {
    assert SameClient(s.peers[id], f.clients[id]);
    assert s.doc.value + [] == s.doc.value;
    f' := f;
    if request.offset == |s.doc.value| {
      f' := Go(doc, f, F.Append(id, request.offset, request.data, F.Reads(false, false, false)));
    }
    SameRefuses(s, s', f, f', id);
  }

  /** Whoever sent an append, and however it is answered. */
  lemma {:induction false} HandleIsOrderly(doc: Option<Bytes>, s: C.System, f: F.System, id: ClientId) returns (f': F.System)
    requires Reached(doc, f) && Same(s, f) && C.Inv(s) && C.Enabled(s, C.Handle(id))
    ensures Reached(doc, f') && Same(C.Apply(s, C.Handle(id)), f')
  {
    var s', request := C.Apply(s, C.Handle(id)), s.peers[id].uplink[0];
    HandlingIs(s, id);
    if request.offset == |s.doc.value| && s.peers[id].conn.canWrite {
      WriterIsTold(s, f, id);
      f' := AcceptedIsOrderly(doc, s, s', f, id, request.data);
    } else {
      f' := RefusedIsOrderly(doc, s, s', f, id, request);
    }
  }

  // ----- The hub ------------------------------------------------------------------------

  /** What the hub does to a client with append k. */
  function Served(id: ClientId, c: F.Client, k: nat, a: F.Accepted): F.Client {
    if id == a.source || a.offset < c.lastEnd then c
    else c.(lastEnd := F.End(a), told := c.told + [F.Told(Some(k), false, a.offset, a.data)])
  }

  lemma {:induction false} ServeFirst(doc: Option<Bytes>, f: F.System, k: nat, todo: seq<ClientId>) returns (f': F.System)
    requires Reached(doc, f) && k < |f.log| && todo != [] && todo[0] in f.clients && f.loop == Some(F.Loop(k, todo, F.Fresh))
    ensures Reached(doc, f')
    ensures f' == F.Set(f, todo[0], Served(todo[0], f.clients[todo[0]], k, f.log[k])).(loop := Some(F.Loop(k, todo[1..], F.Fresh)))
  {
    f' := Go(doc, f, F.HubCheck);
    if f'.loop.value.stage == F.Checked {
      f' := Go(doc, f', F.HubMark);
      f' := Go(doc, f', F.HubQueue);
    } else {
      assert f'.clients == f.clients[todo[0] := f.clients[todo[0]]];
    }
  }

  /** The hub's loop over the members. */
  lemma {:induction false} ServeAll(doc: Option<Bytes>, f: F.System, k: nat, todo: seq<ClientId>) returns (f': F.System)
    requires Reached(doc, f) && k < |f.log| && Distinct(todo) && f.loop == Some(F.Loop(k, todo, F.Fresh))
    requires forall x :: x in todo ==> x in f.clients
    ensures Reached(doc, f')
    ensures f' == f.(clients := f'.clients, loop := None) && f'.clients.Keys == f.clients.Keys
    ensures forall x :: x in f.clients ==>
              f'.clients[x] == if x in todo then Served(x, f.clients[x], k, f.log[k]) else f.clients[x]
    decreases |todo|
  {
    if todo == [] {
      f' := Go(doc, f, F.HubDone);
    } else {
      assert todo == [todo[0]] + todo[1..];
      F.TailDistinct(todo);
      f' := ServeFirst(doc, f, k, todo);
      f' := ServeAll(doc, f', k, todo[1..]);
    }
  }

  /** The rest of the queue stays as it is. */
  lemma {:induction false} SameTail(log: seq<F.Accepted>, hub: seq<C.Closure>, fifo: seq<F.Closure>)
    requires SameHub(log, hub, fifo) && hub != []
    ensures SameHub(log, hub[1..], fifo[1..]) && SameClosure(log, hub[0], fifo[0])
  {
    assert forall i :: 0 <= i < |hub[1..]| ==> hub[1..][i] == hub[i + 1] && fifo[1..][i] == fifo[i + 1];
  }

  /** A client or its departure is registered. */
  lemma {:induction false} MembersAreOrderly(doc: Option<Bytes>, s: C.System, f: F.System) returns (f': F.System)
    requires Reached(doc, f) && Same(s, f) && s.hub != [] && !s.hub[0].Deliver?
    ensures Reached(doc, f') && Same(C.Apply(s, C.HubRun), f')
  {
    ReachedInv(doc, f);
    SameTail(f.log, s.hub, f.fifo);
    f' := Go(doc, f, F.HubTake);
    if s.hub[0].Unregister? {
      F.WithoutIsSubsequence(f.members, s.hub[0].id);
    }
  }

  /** Offering an append keeps a client and its counterpart alike. */
  lemma {:induction false} SameOffer(id: ClientId, p: C.Peer, c: F.Client, member: bool, post: Post, k: nat)
    requires SameClient(p, c) && (p.Online? && member && id != post.source ==> post.offset <= p.conn.lastEnd)
    ensures var a := F.Accepted(post.source, post.offset, post.data);
            SameClient(C.Offer(p, member && id != post.source, post), if member then Served(id, c, k, a) else c)
  {
  }

  /** The append offered next starts at the client's end, or below it. */
  lemma {:induction false} OfferIsNext(s: C.System, id: ClientId)
    requires C.Inv(s) && s.hub != [] && s.hub[0].Deliver? && C.IsOnline(s, id) && id in s.members && s.hub[0].post.source != id
    ensures s.hub[0].post.offset <= s.peers[id].conn.lastEnd
  {
    C.PendingHead(s.hub, id, true);
  }

  lemma {:induction false} OfferedAlike(s: C.System, f: F.System, id: ClientId)
    requires Same(s, f) && C.Inv(s) && s.hub != [] && s.hub[0].Deliver? && id in s.peers
    ensures var k := f.fifo[0].k;
            && f.fifo[0].Deliver? && k < |f.log| && id in f.clients
            && SameClient(C.Apply(s, C.HubRun).peers[id],
                          if id in f.members then Served(id, f.clients[id], k, f.log[k]) else f.clients[id])
  {
    assert SameClosure(f.log, s.hub[0], f.fifo[0]);
    var post := s.hub[0].post;
    if C.IsOnline(s, id) && id in s.members && id != post.source {
      OfferIsNext(s, id);
    }
    SameOffer(id, s.peers[id], f.clients[id], id in f.members, post, f.fifo[0].k);
  }

  /** The hub takes an append and passes it on to every member. */
  lemma {:induction false} TakeAndServe(doc: Option<Bytes>, f: F.System, k: nat) returns (f': F.System)
    requires Reached(doc, f) && f.loop == None && f.fifo != [] && f.fifo[0] == F.Deliver(k) && k < |f.log|
    ensures Reached(doc, f')
    ensures f' == f.(fifo := f.fifo[1..], clients := f'.clients) && f'.clients.Keys == f.clients.Keys
    ensures forall x :: x in f.clients ==>
              f'.clients[x] == if x in f.members then Served(x, f.clients[x], k, f.log[k]) else f.clients[x]
  {
    ReachedInv(doc, f);
    f' := Go(doc, f, F.HubTake);
    f' := ServeAll(doc, f', k, f.members);
  }

  lemma {:induction false} DeliverIsOrderly(doc: Option<Bytes>, s: C.System, f: F.System) returns (f': F.System)
    requires Reached(doc, f) && Same(s, f) && C.Inv(s) && s.hub != [] && s.hub[0].Deliver?
    ensures Reached(doc, f') && Same(C.Apply(s, C.HubRun), f')
  {
    SameTail(f.log, s.hub, f.fifo);
    f' := TakeAndServe(doc, f, f.fifo[0].k);
    forall x | x in s.peers ensures SameClient(C.Apply(s, C.HubRun).peers[x], f'.clients[x]) {
      OfferedAlike(s, f, x);
    }
  }

  // ----- Any step -----------------------------------------------------------------------

  lemma {:induction false} StepIsOrderly(doc: Option<Bytes>, s: C.System, f: F.System, step: C.Step) returns (f': F.System)
    requires Reached(doc, f) && Same(s, f) && C.Inv(s) && C.Enabled(s, step)
    ensures Reached(doc, f') && Same(C.Apply(s, step), f')
  {
    match step
    case Connect(_, _, _, _, _) => f' := ConnectIsOrderly(doc, s, f, step);
    case Disconnect(id) => f' := DisconnectIsOrderly(doc, s, f, id);
    case Handle(id) => f' := HandleIsOrderly(doc, s, f, id);
    case HubRun =>
      if s.hub[0].Deliver? {
        f' := DeliverIsOrderly(doc, s, f);
      } else {
        f' := MembersAreOrderly(doc, s, f);
      }
    case _ =>
      OutsideStep(s, f, step);
      f' := f;
  }
}
