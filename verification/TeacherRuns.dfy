/**
 Runs of the protocol in which one client is the program of the stress test: it sends when and where
 its own variables say, and hears what arrives.  The other clients are arbitrary.
 */
module TeacherRuns {
  import opened Base
  import opened Protocol
  import opened Teacher
  import Runs = ProtocolRuns
  import Store

  /**
   The state of the protocol; the program, once it has read its first message; and whether it waits
   because its last append was answered that writing is not permitted.
   */
  datatype World = World(s: Runs.System, program: Option<State>, denied: bool)

  function Start(doc: Option<Bytes>): World { World(Runs.Start(doc), None, false) }

  predicate Enabled(w: World, id: ClientId, step: Runs.Step) {
    && Runs.Enabled(w.s, step)
    && (step.Send? && step.id == id ==> w.program.Some? && w.program.value.gotAck)
  }

  /** The program's append is sent at the offset the program has. */
  function SendAt(s: Runs.System, id: ClientId, at: nat, data: Bytes): Runs.System
    requires Runs.IsOnline(s, id)
  {
    var p, request := s.peers[id], Request(at, data);
    s.(peers := s.peers[id := p.(remote := p.remote.(awaiting := p.remote.awaiting + [request], rejectedAt := None),
                                 uplink := p.uplink + [request])])
  }

  /** The first message gives the offset; in these runs it is always a range of the document. */
  function HearFirst(m: Message): State {
    if m.AppendMsg? then State(m.offset + |m.data|, true) else State(0, true)
  }

  /** A waiting program hears that its last append is not permitted, or what ends its waiting. */
  function DeniedBy(t: State, denied: bool, r: Remote, m: Message): bool {
    if EndsWaiting(m) then false
    else if !t.gotAck && m.AckNackMsg? && m.ack != NACK && |r.awaiting| == 1 then true
    else denied
  }

  function Apply(w: World, id: ClientId, step: Runs.Step): World
    requires Enabled(w, id, step)
  {
    if step.Send? && step.id == id then
      var at := w.program.value.offset;
      World(SendAt(w.s, id, at, step.data), Some(State(at, false)), false)
    else if step.Arrive? && step.id == id then
      var p := w.s.peers[id];
      var m := p.conn.queue[0];
      if w.program.None? then World(Runs.Apply(w.s, step), Some(HearFirst(m)), false)
      else
        var t := w.program.value;
        World(Runs.Apply(w.s, step), Some(Hear(t, m)), DeniedBy(t, w.denied, p.remote, m))
    else w.(s := Runs.Apply(w.s, step))
  }

  ghost predicate ValidRun(w: World, id: ClientId, steps: seq<Runs.Step>)
    decreases |steps|
  {
    steps == [] || (Enabled(w, id, steps[0]) && ValidRun(Apply(w, id, steps[0]), id, steps[1..]))
  }

  ghost function Run(w: World, id: ClientId, steps: seq<Runs.Step>): World
    requires ValidRun(w, id, steps)
    decreases |steps|
  {
    if steps == [] then w else Run(Apply(w, id, steps[0]), id, steps[1..])
  }

  // ----- The program and the protocol's client ------------------------------------------

  /**
   The program has the client's offset, and waits only for an append it sent at the end of the
   copy: not answered yet, refused, or not permitted.
   */
  predicate Follows(t: State, denied: bool, r: Remote) {
    && t.offset == r.offset
    && (denied ==> !t.gotAck && r.awaiting == [])
    && (!t.gotAck ==>
          if r.awaiting != [] then r.awaiting[|r.awaiting| - 1].offset == |r.replica|
          else denied || r.rejectedAt == Some(|r.replica|))
  }

  /** Before its first message nothing was sent, and a range of the document comes first. */
  predicate Waits(p: Runs.Peer)
    requires p.Online?
  {
    p.remote.awaiting == [] && p.uplink == [] && p.conn.queue != [] && p.conn.queue[0].AppendMsg?
  }

  predicate Inv(w: World, id: ClientId) {
    && (id !in w.s.peers ==> w.program.None? && !w.denied)
    && (Runs.IsOnline(w.s, id) ==>
          var p := w.s.peers[id];
          if w.program.None? then Waits(p) && !w.denied else Follows(w.program.value, w.denied, p.remote))
  }

  lemma {:induction false} HearingFollows(t: State, denied: bool, r: Remote, m: Message)
    requires Follows(t, denied, r) && FitsOne(r, m)
    requires m.AckNackMsg? ==> r.awaiting != []
    ensures Follows(Hear(t, m), DeniedBy(t, denied, r, m), Receive(r, m))
  {
  }

  /** What the joint step does to the protocol is a step of the protocol. */
  lemma {:induction false} StepIsProtocolStep(w: World, id: ClientId, step: Runs.Step)
    requires Runs.Inv(w.s) && Inv(w, id) && Enabled(w, id, step)
    ensures Apply(w, id, step).s == Runs.Apply(w.s, step)
  {
  }

  lemma {:induction false} ArrivalFollows(w: World, id: ClientId, step: Runs.Step)
    requires Runs.Inv(w.s) && Inv(w, id) && Enabled(w, id, step) && step.Arrive? && step.id == id
    ensures Inv(Apply(w, id, step), id)
  {
    var p := w.s.peers[id];
    assert Fits(p.remote, p.conn.queue);
    if w.program.Some? {
      HearingFollows(w.program.value, w.denied, p.remote, p.conn.queue[0]);
    }
  }

  /** A step that leaves the client's side alone and takes nothing from its queue. */
  lemma {:induction false} OtherStepFollows(w: World, id: ClientId, step: Runs.Step)
    requires Inv(w, id) && Enabled(w, id, step)
    requires !(step.Send? && step.id == id) && !(step.Arrive? && step.id == id)
    ensures Inv(Apply(w, id, step), id)
  {
    if step.Connect? && step.id == id {
      assert Runs.IsOnline(Apply(w, id, step).s, id) ==> |Apply(w, id, step).s.peers[id].conn.queue| == 1;
    }
  }

  lemma {:induction false} StepKeepsInv(w: World, id: ClientId, step: Runs.Step)
    requires Runs.Inv(w.s) && Inv(w, id) && Enabled(w, id, step)
    ensures Runs.Inv(Apply(w, id, step).s) && Inv(Apply(w, id, step), id)
  {
    StepIsProtocolStep(w, id, step);
    Runs.StepKeepsInv(w.s, step);
    if step.Arrive? && step.id == id {
      ArrivalFollows(w, id, step);
    } else if !(step.Send? && step.id == id) {
      OtherStepFollows(w, id, step);
    }
  }

  lemma {:induction false} RunKeepsInv(w: World, id: ClientId, steps: seq<Runs.Step>)
    requires Runs.Inv(w.s) && Inv(w, id) && ValidRun(w, id, steps)
    ensures Runs.ValidRun(w.s, steps) && Run(w, id, steps).s == Runs.Run(w.s, steps)
    ensures Runs.Inv(Run(w, id, steps).s) && Inv(Run(w, id, steps), id)
    decreases |steps|
  {
    if steps != [] {
      StepIsProtocolStep(w, id, steps[0]);
      StepKeepsInv(w, id, steps[0]);
      RunKeepsInv(Apply(w, id, steps[0]), id, steps[1..]);
    }
  }

  // ----- Main results -------------------------------------------------------------------

  /**
   What the program does is a run of the protocol: after every joint run the offset it sends at is
   the length of the copy.
   */
  lemma {:induction false} ProgramSendsAtCopyLength(doc: Option<Bytes>, id: ClientId, steps: seq<Runs.Step>)
    requires ValidRun(Start(doc), id, steps)
    ensures Runs.ValidRun(Runs.Start(doc), steps) && Run(Start(doc), id, steps).s == Runs.Run(Runs.Start(doc), steps)
    ensures var w := Run(Start(doc), id, steps);
            Runs.IsOnline(w.s, id) && w.program.Some? ==> w.program.value.offset == |w.s.peers[id].remote.replica|
  {
    RunKeepsInv(Start(doc), id, steps);
  }

  /** Nothing is on its way from or to the client, nor in the hub. */
  predicate Quiet(w: World, id: ClientId) {
    Runs.IsOnline(w.s, id) && w.s.hub == [] && w.s.peers[id].uplink == [] && w.s.peers[id].conn.queue == []
  }

  /**
   Once nothing is on its way, the program may send exactly if it was not told that its last append
   is not permitted.  Being told that leaves it waiting.
   */
  lemma {:induction false} MaySendIffNotDenied(doc: Option<Bytes>, id: ClientId, steps: seq<Runs.Step>)
    requires ValidRun(Start(doc), id, steps) && Quiet(Run(Start(doc), id, steps), id)
    ensures var w := Run(Start(doc), id, steps);
            w.program.Some? && (w.program.value.gotAck <==> !w.denied)
  {
    RunKeepsInv(Start(doc), id, steps);
    var w := Run(Start(doc), id, steps);
    var p := w.s.peers[id];
    assert p.remote.awaiting == [];
    assert Runs.Pending([], id, id in w.s.members) == [];
    assert p.conn.lastEnd == |w.s.doc.value|;
  }

  predicate Permitting(queue: seq<Message>) {
    forall m :: m in queue && m.AckNackMsg? ==> m.ack <= ACK
  }

  /** Answers that are no refusal for lack of permission keep the program in step without denial. */
  lemma {:induction false} HearingAllFollows(t: State, r: Remote, queue: seq<Message>)
    requires Follows(t, false, r) && Fits(r, queue) && Replies(queue) <= |r.awaiting| && Permitting(queue)
    ensures Follows(HearAll(t, queue), false, ReceiveAll(r, queue))
    decreases |queue|
  {
    if queue != [] {
      assert queue[0] in queue;
      assert forall m :: m in queue[1..] ==> m in queue;
      HearingFollows(t, false, r, queue[0]);
      HearingAllFollows(Hear(t, queue[0]), Receive(r, queue[0]), queue[1..]);
    }
  }

  /** What the hub offers are ranges, and no answers. */
  lemma {:induction false} OffersAnswerNothing(c: Conn, posts: seq<Post>)
    ensures Replies(OfferAll(c, posts).queue) == Replies(c.queue)
    ensures Permitting(c.queue) ==> Permitting(OfferAll(c, posts).queue)
    decreases |posts|
  {
    if posts != [] {
      RepliesSnoc(c.queue, AppendMsg(posts[0].offset, posts[0].data));
      OffersAnswerNothing(EnqueueAppend(c, posts[0].data, posts[0].offset), posts[1..]);
    }
  }

  /**
   The program's waiting ends: after every joint run, when the server has handled its appends and
   did not deny the right to write, what is queued for it and what the hub has for it lets it send.
   */
  lemma {:induction false} WaitingEnds(doc: Option<Bytes>, id: ClientId, steps: seq<Runs.Step>)
    requires ValidRun(Start(doc), id, steps)
    requires var w := Run(Start(doc), id, steps);
             && Runs.IsOnline(w.s, id) && w.program.Some? && !w.denied
             && w.s.peers[id].uplink == [] && Permitting(w.s.peers[id].conn.queue)
    ensures var w := Run(Start(doc), id, steps);
            HearAll(w.program.value, OfferAll(w.s.peers[id].conn, Runs.Pending(w.s.hub, id, id in w.s.members)).queue).gotAck
  {
    RunKeepsInv(Start(doc), id, steps);
    var w := Run(Start(doc), id, steps);
    var p, pending := w.s.peers[id], Runs.Pending(w.s.hub, id, id in w.s.members);
    var queue := OfferAll(p.conn, pending).queue;
    OffersAnswerNothing(p.conn, pending);
    Runs.ChainCompletes(w.s.doc.value, pending, p);
    Runs.ChainOutgrowsRejection(w.s.doc.value, pending, p);
    AwaitingAfter(p.remote, queue);
    HearingAllFollows(w.program.value, p.remote, queue);
  }

  // ----- A program that may write -------------------------------------------------------

  /** The server handles the program's appends only while it may write. */
  predicate MayWrite(w: World, id: ClientId, step: Runs.Step)
    requires Enabled(w, id, step)
  {
    step == Runs.Handle(id) ==> w.s.peers[id].conn.canWrite
  }

  ghost predicate WritersRun(w: World, id: ClientId, steps: seq<Runs.Step>)
    requires ValidRun(w, id, steps)
    decreases |steps|
  {
    steps == [] || (MayWrite(w, id, steps[0]) && WritersRun(Apply(w, id, steps[0]), id, steps[1..]))
  }

  predicate NeverDenied(w: World, id: ClientId) {
    !w.denied && (Runs.IsOnline(w.s, id) ==> Permitting(w.s.peers[id].conn.queue))
  }

  lemma {:induction false} StepKeepsPermitting(w: World, id: ClientId, step: Runs.Step)
    requires Enabled(w, id, step) && MayWrite(w, id, step) && NeverDenied(w, id)
    ensures NeverDenied(Apply(w, id, step), id)
  {
    if Runs.IsOnline(w.s, id) && w.s.peers[id].conn.queue != [] {
      assert w.s.peers[id].conn.queue[0] in w.s.peers[id].conn.queue;
      assert forall m :: m in w.s.peers[id].conn.queue[1..] ==> m in w.s.peers[id].conn.queue;
    }
  }

  lemma {:induction false} RunKeepsPermitting(w: World, id: ClientId, steps: seq<Runs.Step>)
    requires ValidRun(w, id, steps) && WritersRun(w, id, steps) && NeverDenied(w, id)
    ensures NeverDenied(Run(w, id, steps), id)
    decreases |steps|
  {
    if steps != [] {
      StepKeepsPermitting(w, id, steps[0]);
      RunKeepsPermitting(Apply(w, id, steps[0]), id, steps[1..]);
    }
  }

  /** A program that keeps the right to write is never stuck. */
  lemma {:induction false} WriterIsNeverStuck(doc: Option<Bytes>, id: ClientId, steps: seq<Runs.Step>)
    requires ValidRun(Start(doc), id, steps) && WritersRun(Start(doc), id, steps)
    requires Quiet(Run(Start(doc), id, steps), id)
    ensures var w := Run(Start(doc), id, steps); w.program.Some? && w.program.value.gotAck
  {
    RunKeepsPermitting(Start(doc), id, steps);
    MaySendIffNotDenied(doc, id, steps);
  }

  // ----- A program that may not ---------------------------------------------------------

  const EMPTY: World := Start(Some([]))

  /** A joint run of the program "a" from the empty document ends here. */
  ghost predicate Reachable(w: World) { exists steps :: ValidRun(EMPTY, "a", steps) && Run(EMPTY, "a", steps) == w }

  lemma {:induction false} RunSnoc(w: World, steps: seq<Runs.Step>, step: Runs.Step)
    requires ValidRun(w, "a", steps) && Enabled(Run(w, "a", steps), "a", step)
    ensures ValidRun(w, "a", steps + [step]) && Run(w, "a", steps + [step]) == Apply(Run(w, "a", steps), "a", step)
    decreases |steps|
  {
    if steps == [] {
      assert steps + [step] == [step] && [step][1..] == [];
    } else {
      assert (steps + [step])[1..] == steps[1..] + [step];
      RunSnoc(Apply(w, "a", steps[0]), steps[1..], step);
    }
  }

  lemma {:induction false} Go(w: World, step: Runs.Step) returns (w': World)
    requires Reachable(w) && Enabled(w, "a", step)
    ensures Reachable(w') && w' == Apply(w, "a", step)
  {
    var steps :| ValidRun(EMPTY, "a", steps) && Run(EMPTY, "a", steps) == w;
    RunSnoc(EMPTY, steps, step);
    w' := Apply(w, "a", step);
  }

  /** The program has connected without the right to write, and read its first message. */
  lemma {:induction false} ReaderConnects() returns (w: World)
    ensures Reachable(w) && w.program == Some(State(0, true)) && !w.denied && w.s.doc == Some([]) && w.s.hub == []
    ensures Runs.IsOnline(w.s, "a")
    ensures w.s.peers["a"] == Runs.Online(Conn(0, [], false), Remote([], 0, [], None), [])
  {
    assert ValidRun(EMPTY, "a", []) && Run(EMPTY, "a", []) == EMPTY;
    w := Go(EMPTY, Runs.Connect("a", None, Store.NEVER_CREATE, [], false));
    assert w.s.peers["a"] == Runs.Online(Conn(0, [AppendMsg(0, [])], false), Remote([], 0, [], None), []);
    assert w.s.hub == [Runs.Register("a")];
    w := Go(w, Runs.HubRun);
    w := Go(w, Runs.Arrive("a"));
  }

  /** Nothing is on its way, and the program waits for good: nobody else is there to end it. */
  lemma {:induction false} ReaderIsStuck()
    ensures exists w :: Reachable(w) && Quiet(w, "a") && w.denied && w.program == Some(State(0, false))
  {
    var w := ReaderConnects();
    w := Go(w, Runs.Send("a", [1]));
    assert w.s.peers["a"].uplink == [Request(0, [1])];
    w := Go(w, Runs.Handle("a"));
    assert w.s.peers["a"].conn.queue == [AckNackMsg(NO_PERMISSION, 0)];
    w := Go(w, Runs.Arrive("a"));
  }
}
