/** Runs of FineProtocol that leave gaps: everything has been delivered, and a client lacks bytes of the document. */
module GapRuns {
  import opened Base
  import opened FineProtocol
  import Store

  lemma {:induction false} RunSnoc(s: System, steps: seq<Step>, step: Step)
    requires ValidRun(s, steps) && Enabled(Run(s, steps), step)
    ensures ValidRun(s, steps + [step]) && Run(s, steps + [step]) == Apply(Run(s, steps), step)
    decreases |steps|
  {
    if steps == [] {
      assert steps + [step] == [step];
      assert [step][1..] == [];
    } else {
      assert (steps + [step])[1..] == steps[1..] + [step];
      RunSnoc(Apply(s, steps[0]), steps[1..], step);
    }
  }

  const EMPTY: System := Start(Some([]))

  /** A run from the empty document ends here. */
  ghost predicate Reachable(s: System) { exists steps :: ValidRun(EMPTY, steps) && Run(EMPTY, steps) == s }

  lemma {:induction false} EmptyIsReachable()
    ensures Reachable(EMPTY)
  {
    assert ValidRun(EMPTY, []) && Run(EMPTY, []) == EMPTY;
  }

  /** One more step of a run from the empty document. */
  lemma {:induction false} Go(s: System, step: Step) returns (s': System)
    requires Reachable(s) && Enabled(s, step)
    ensures Reachable(s') && s' == Apply(s, step)
  {
    var steps :| ValidRun(EMPTY, steps) && Run(EMPTY, steps) == s;
    RunSnoc(EMPTY, steps, step);
    s' := Apply(s, step);
  }

  lemma {:induction false} GoFetch(s: System, id: ClientId) returns (s': System)
    requires Reachable(s) && id !in s.clients && s.doc == Some([])
    ensures Reachable(s')
    ensures s' == Set(s, id, Client(Fetched(0, []), 0, []))
  {
    s' := Go(s, Fetch(id, Store.NEVER_CREATE, [], 0));
  }

  lemma {:induction false} GoGreet(s: System, id: ClientId) returns (s': System)
    requires Reachable(s) && id !in s.clients && s.doc == Some([])
    ensures Reachable(s')
    ensures s' == Set(s, id, Client(Greeted, 0, [Told(None, false, 0, [])]))
  {
    s' := GoFetch(s, id);
    s' := Go(s', Greet(id));
  }

  lemma {:induction false} GoIn(s: System, id: ClientId) returns (s': System)
    requires Reachable(s) && id !in s.clients && s.doc == Some([])
    ensures Reachable(s')
    ensures s' == Set(s, id, Client(Ready, 0, [Told(None, false, 0, [])])).(fifo := s.fifo + [Register(id)])
  {
    s' := GoGreet(s, id);
    s' := Go(s', Join(id));
  }

  lemma {:induction false} GoAccept(s: System, id: ClientId, data: Bytes) returns (s': System)
    requires Reachable(s) && In(s, id) && s.clients[id].phase.Ready? && s.doc.Some?
    ensures Reachable(s')
    ensures s' == Set(s, id, s.clients[id].(phase := Accepting(|s.log|)))
                    .(doc := Some(s.doc.value + data), log := s.log + [Accepted(id, |s.doc.value|, data)])
  {
    s' := Go(s, Append(id, |s.doc.value|, data, Reads(true, true, true)));
  }

  lemma {:induction false} GoAppend(s: System, id: ClientId, data: Bytes) returns (s': System)
    requires Reachable(s) && In(s, id) && s.clients[id].phase.Ready? && s.doc.Some?
    ensures Reachable(s')
    ensures var n := |s.doc.value|;
            s' == Set(s, id, Client(Marking(|s.log|), n + |data|,
                                    s.clients[id].told + [Told(Some(|s.log|), true, n, data)]))
                    .(doc := Some(s.doc.value + data), log := s.log + [Accepted(id, n, data)])
  {
    s' := GoAccept(s, id, data);
    s' := Go(s', QueueAck(id));
    s' := Go(s', SetLastEnd(id));
  }

  const NEWCOMER: Client := Client(Ready, 0, [Told(None, false, 0, [])])

  /** A reader "c" and two writers, all registered with an empty document. */
  lemma {:induction false} ThreeClients() returns (s: System)
    ensures Reachable(s)
    ensures s == System(Some([]), [], map["c" := NEWCOMER, "a" := NEWCOMER, "b" := NEWCOMER], [], ["c", "a", "b"], None)
  {
    EmptyIsReachable();
    s := GoIn(EMPTY, "c");
    s := Go(s, HubTake);
    s := GoIn(s, "a");
    s := Go(s, HubTake);
    s := GoIn(s, "b");
    s := Go(s, HubTake);
  }

  /** Both writers have been acknowledged; the second writer's goroutine reaches the hub first. */
  lemma {:induction false} SecondWriterOvertakes() returns (s: System)
    ensures Reachable(s)
    ensures s.doc == Some([1, 2]) && s.log == [Accepted("a", 0, [1]), Accepted("b", 1, [2])]
    ensures s.members == ["c", "a", "b"] && s.loop == None && s.fifo == [Deliver(1), Deliver(0)]
    ensures In(s, "a") && In(s, "b") && In(s, "c")
    ensures s.clients["a"].lastEnd == 1 && s.clients["b"].lastEnd == 2 && s.clients["c"] == NEWCOMER
  {
    s := ThreeClients();
    s := GoAppend(s, "a", [1]);
    assert s.clients["a"] == Client(Marking(0), 1, NEWCOMER.told + [Told(Some(0), true, 0, [1])]);
    assert s.doc.value == [1];
    s := GoAppend(s, "b", [2]);
    assert s.clients["b"] == Client(Marking(1), 2, NEWCOMER.told + [Told(Some(1), true, 1, [2])]);
    assert s.doc.value == [1, 2];
    s := Go(s, CallHub("b"));
    s := Go(s, CallHub("a"));
  }

  /** The hub serves the first client of its loop, if the guard lets the range pass. */
  lemma {:induction false} GoServe(s: System) returns (s': System)
    requires Reachable(s) && Enabled(s, HubCheck)
    ensures Reachable(s')
    ensures var l := s.loop.value; var id := l.todo[0]; var a := s.log[l.k];
            s' == (if id == a.source || a.offset < s.clients[id].lastEnd then s
                   else Set(s, id, Client(s.clients[id].phase, End(a),
                                          s.clients[id].told + [Told(Some(l.k), false, a.offset, a.data)])))
                  .(loop := Some(Loop(l.k, l.todo[1..], Fresh)))
  {
    s' := Go(s, HubCheck);
    if s'.loop.value.stage == Checked {
      s' := Go(s', HubMark);
      s' := Go(s', HubQueue);
    }
  }

  /** The hub passes append k on to the clients of the run above. */
  lemma {:induction false} GoDeliver(s: System) returns (s': System)
    requires Reachable(s) && Enabled(s, HubTake) && s.fifo[0].Deliver? && s.fifo[0].k < |s.log| && s.members == ["c", "a", "b"]
    requires In(s, "a") && In(s, "b") && In(s, "c")
    ensures Reachable(s')
    ensures s'.fifo == s.fifo[1..] && s'.loop == None && s'.members == s.members && s'.doc == s.doc && s'.log == s.log
    ensures In(s', "a") && In(s', "b") && In(s', "c")
    ensures var a := s.log[s.fifo[0].k];
            s'.clients["c"] ==
            if "c" == a.source || a.offset < s.clients["c"].lastEnd then s.clients["c"]
            else Client(s.clients["c"].phase, End(a),
                        s.clients["c"].told + [Told(Some(s.fifo[0].k), false, a.offset, a.data)])
  {
    s' := Go(s, HubTake);
    s' := GoServe(s');
    s' := GoServe(s');
    s' := GoServe(s');
    s' := Go(s', HubDone);
  }

  /**
   A second writer reaches the hub before the first: a run after which everything has been delivered and
   the reader has been told of the second byte of the document but never of the first.
   */
  lemma {:induction false} OvertakingLeavesGap()
    ensures exists s ::
              && Reachable(s)
              && s.doc == Some([1, 2]) && s.fifo == [] && s.loop == None
              && In(s, "c") && s.clients["c"].told == [Told(None, false, 0, []), Told(Some(1), false, 1, [2])]
  {
    var s := SecondWriterOvertakes();
    s := GoDeliver(s);
    s := GoDeliver(s);
  }

  /** "a" is registered with an empty document, which "c" has read. */
  lemma {:induction false} WriterAndNewcomer() returns (s: System)
    ensures Reachable(s)
    ensures s == System(Some([]), [], map["a" := NEWCOMER, "c" := ABSENT], [], ["a"], None)
  {
    EmptyIsReachable();
    s := GoIn(EMPTY, "a");
    s := Go(s, HubTake);
    assert s.members == ["a"];
    assert "a"[0] != "c"[0];
    s := GoFetch(s, "c");
  }

  const ABSENT: Client := Client(Fetched(0, []), 0, [])

  /** "a" appends and calls the hub. */
  lemma {:induction false} WriterAppends() returns (s: System)
    ensures Reachable(s)
    ensures s.doc == Some([1]) && s.log == [Accepted("a", 0, [1])] && s.fifo == [Deliver(0)] && s.loop == None
    ensures s.members == ["a"] && In(s, "a") && In(s, "c") && s.clients["c"] == ABSENT
  {
    s := WriterAndNewcomer();
    assert "a"[0] != "c"[0];
    s := GoAppend(s, "a", [1]);
    assert s.clients["a"].phase == Marking(0) && s.clients["c"] == ABSENT;
    assert s.doc.value == [1];
    s := Go(s, CallHub("a"));
  }

  /** The hub has passed it on. */
  lemma {:induction false} WriterIsFirst() returns (s: System)
    ensures Reachable(s)
    ensures s.doc == Some([1]) && s.log == [Accepted("a", 0, [1])] && s.fifo == [] && s.loop == None && s.members == ["a"]
    ensures In(s, "c") && s.clients["c"] == ABSENT
  {
    s := WriterAppends();
    s := Go(s, HubTake);
    assert s.loop == Some(Loop(0, ["a"], Fresh));
    s := GoServe(s);
    s := Go(s, HubDone);
  }

  /**
   The window between reading the document and asking to be registered: everything has been
   delivered, "c" is a member, and has never been told of the only byte of the document.
   */
  lemma {:induction false} JoinWindowLeavesGap()
    ensures exists s ::
              && Reachable(s)
              && s.doc == Some([1]) && s.fifo == [] && s.loop == None && s.members == ["a", "c"]
              && In(s, "c") && s.clients["c"].told == [Told(None, false, 0, [])]
  {
    var s := WriterIsFirst();
    s := Go(s, Greet("c"));
    s := Go(s, Join("c"));
    assert s.fifo == [Register("c")];
    s := Go(s, HubTake);
  }

  /** "c" appends behind an append of "a" that the hub has not passed on yet. */
  lemma {:induction false} ReaderAppendsBlindly() returns (s: System)
    ensures Reachable(s)
    ensures s.doc == Some([1, 2]) && s.log == [Accepted("a", 0, [1]), Accepted("c", 1, [2])]
    ensures s.members == ["c", "a", "b"] && s.loop == None && s.fifo == [Deliver(0), Deliver(1)]
    ensures In(s, "a") && In(s, "b") && In(s, "c")
    ensures s.clients["c"] == Client(Ready, 2, [Told(None, false, 0, []), Told(Some(1), true, 1, [2])])
  {
    s := ThreeClients();
    s := GoAppend(s, "a", [1]);
    assert s.clients["a"].phase == Marking(0) && s.clients["c"] == NEWCOMER;
    assert s.doc.value == [1];
    s := Go(s, CallHub("a"));
    s := GoAppend(s, "c", [2]);
    assert s.clients["c"] == Client(Marking(1), 2, NEWCOMER.told + [Told(Some(1), true, 1, [2])]);
    assert s.doc.value == [1, 2];
    s := Go(s, CallHub("c"));
  }

  /** Guessing the length of the document: the guard drops what "c" was not told before it appended. */
  lemma {:induction false} BlindAppendLeavesGap()
    ensures exists s ::
              && Reachable(s)
              && s.doc == Some([1, 2]) && s.fifo == [] && s.loop == None
              && In(s, "c") && s.clients["c"].told == [Told(None, false, 0, []), Told(Some(1), true, 1, [2])]
  {
    var s := ReaderAppendsBlindly();
    s := GoDeliver(s);
    s := GoDeliver(s);
  }

  /** A writer loses its right between the acceptance and the call to the hub: nobody is told, nor is it. */
  lemma {:induction false} LostRightLeavesGap()
    ensures exists s ::
              && Reachable(s)
              && s.doc == Some([1]) && s.fifo == [] && s.loop == None && s.members == ["c", "a", "b"]
              && forall id :: id in s.clients ==> s.clients[id] == NEWCOMER
  {
    var s := ThreeClients();
    s := Go(s, Append("a", 0, [1], Reads(true, false, false)));
    assert s.doc.value == [1];
  }
}
