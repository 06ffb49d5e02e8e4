/** The two granularities: runs of whole messages and closures are orderly runs of single calls. */
module Refinement {
  import opened Base
  import opened Protocol
  import opened MessageSteps
  import C = ProtocolRuns
  import F = FineProtocol
  import G = FineGaps
  import R = OrderlyRuns

  /** The bytes of all ranges, one after the other. */
  function Text(told: seq<F.Told>): Bytes
    decreases |told|
  {
    if told == [] then [] else Text(told[..|told| - 1]) + told[|told| - 1].data
  }

  /** True and seamless ranges make up a part of the document. */
  lemma {:induction false} TextIsSlice(doc: Bytes, told: seq<F.Told>)
    requires told != [] && Seamless(told)
    requires forall i :: 0 <= i < |told| ==> F.Slice(Some(doc), told[i].offset, told[i].data)
    ensures told[0].offset <= EndOf(told) <= |doc| && Text(told) == doc[told[0].offset..EndOf(told)]
    decreases |told|
  {
    var last := |told| - 1;
    assert F.Slice(Some(doc), told[last].offset, told[last].data);
    if last == 0 {
      assert told[..last] == [];
    } else {
      TextIsSlice(doc, told[..last]);
      assert told[..last][0] == told[0] && told[..last][last - 1] == told[last - 1];
      assert doc[told[0].offset..told[last].offset] + doc[told[last].offset..EndOf(told)] == doc[told[0].offset..EndOf(told)];
    }
  }

  // ----- Runs ---------------------------------------------------------------------------

  lemma {:induction false} RunIsOrderly(doc: Option<Bytes>, s: C.System, f: F.System, steps: seq<C.Step>) returns (f': F.System)
    requires Reached(doc, f) && Same(s, f) && C.Inv(s) && C.ValidRun(s, steps)
    ensures Reached(doc, f') && Same(C.Run(s, steps), f')
    decreases |steps|
  {
    f' := f;
    if steps != [] {
      C.StepKeepsInv(s, steps[0]);
      f' := StepIsOrderly(doc, s, f, steps[0]);
      f' := RunIsOrderly(doc, C.Apply(s, steps[0]), f', steps[1..]);
    }
  }

  /** The copy, with what is queued, is the document up to lastEnd; with nothing left in the hub it is all of it. */
  lemma {:induction false} CopyReachesEnd(doc: Option<Bytes>, steps: seq<C.Step>, id: ClientId)
    requires C.ValidRun(C.Start(doc), steps) && C.IsOnline(C.Run(C.Start(doc), steps), id)
    ensures var s := C.Run(C.Start(doc), steps);
            var p := s.peers[id];
            && s.doc.Some? && p.conn.lastEnd <= |s.doc.value|
            && ReceiveAll(p.remote, p.conn.queue).replica == s.doc.value[..p.conn.lastEnd]
            && (s.hub == [] ==> p.conn.lastEnd == |s.doc.value|)
  {
    C.RunKeepsInv(C.Start(doc), steps);
    C.Convergence(doc, steps, id);
  }

  /**
   What the client's copy and queue hold is, from where its snapshot starts, just what the single
   calls told it, in their order; with nothing left in the hub it is the whole document.
   */
  ghost predicate SameTelling(s: C.System, f: F.System, id: ClientId)
    requires C.IsOnline(s, id)
  {
    id in f.clients && s.doc.Some? &&
    var told, copy := f.clients[id].told, ReceiveAll(s.peers[id].remote, s.peers[id].conn.queue).replica;
    && told != [] && Seamless(told)
    && told[0].offset <= EndOf(told) == |copy| && copy[told[0].offset..] == Text(told)
    && (s.hub == [] ==> copy == s.doc.value)
  }

  lemma {:induction false} EndsTelling(doc: Option<Bytes>, steps: seq<C.Step>, calls: seq<F.Step>, id: ClientId)
    requires C.ValidRun(C.Start(doc), steps) && C.IsOnline(C.Run(C.Start(doc), steps), id)
    requires F.ValidRun(F.Start(doc), calls) && Same(C.Run(C.Start(doc), steps), F.Run(F.Start(doc), calls))
    ensures SameTelling(C.Run(C.Start(doc), steps), F.Run(F.Start(doc), calls), id)
  {
    var s, f := C.Run(C.Start(doc), steps), F.Run(F.Start(doc), calls);
    CopyReachesEnd(doc, steps, id);
    assert SameClient(s.peers[id], f.clients[id]);
    G.ToldOnceAndTruthfully(doc, calls, id);
    var told, end := f.clients[id].told, s.peers[id].conn.lastEnd;
    TextIsSlice(s.doc.value, told);
    assert s.doc.value[..end][told[0].offset..] == s.doc.value[told[0].offset..end];
    assert s.doc.value[..|s.doc.value|] == s.doc.value;
  }

  /**
   Every run of whole messages and closures is an orderly run of the single calls.  It ends with the
   same document, clients and queue of the hub, and each connected client has been told, call by
   call and in order, of just what its copy and its queue hold.
   */
  lemma {:induction false} MessageRunsAreOrderly(doc: Option<Bytes>, steps: seq<C.Step>) returns (calls: seq<F.Step>)
    requires C.ValidRun(C.Start(doc), steps)
    ensures F.ValidRun(F.Start(doc), calls) && R.OrderlyRun(F.Start(doc), calls)
    ensures Same(C.Run(C.Start(doc), steps), F.Run(F.Start(doc), calls))
    ensures forall id | C.IsOnline(C.Run(C.Start(doc), steps), id) ::
              SameTelling(C.Run(C.Start(doc), steps), F.Run(F.Start(doc), calls), id)
  {
    var start := F.Start(doc);
    assert F.ValidRun(start, []) && R.OrderlyRun(start, []) && F.Run(start, []) == start;
    var f := RunIsOrderly(doc, C.Start(doc), start, steps);
    calls :| F.ValidRun(start, calls) && R.OrderlyRun(start, calls) && F.Run(start, calls) == f;
    forall id | C.IsOnline(C.Run(C.Start(doc), steps), id) ensures SameTelling(C.Run(C.Start(doc), steps), f, id) {
      EndsTelling(doc, steps, calls, id);
    }
  }
}
