/** What becomes of every accepted append in the runs of FineProtocol. */
module FineGaps {
  import opened Base
  import opened FineProtocol
  import opened GapSteps

  /** The appends skipped for `id` in a run. */
  ghost function Skipped(s: System, steps: seq<Step>, id: ClientId): set<nat>
    requires ValidRun(s, steps)
    decreases |steps|
  {
    if steps == [] then {} else Skip(s, steps[0], id) + Skipped(Apply(s, steps[0]), steps[1..], id)
  }

  predicate DisjointRanges(a: Told, b: Told) {
    a.offset + |a.data| <= b.offset || b.offset + |b.data| <= a.offset
  }

  /**
   Truth and at-most-once, for every interleaving of every call and whatever the clients send:
   each range a client is told of is what the document holds there, and no byte is told twice,
   whether in the snapshot, through the hub or as an acknowledgement of the client's own append.
   */
  lemma {:induction false} ToldOnceAndTruthfully(doc: Option<Bytes>, steps: seq<Step>, id: ClientId)
    requires ValidRun(Start(doc), steps) && In(Run(Start(doc), steps), id)
    ensures var s := Run(Start(doc), steps);
            var told := s.clients[id].told;
            && (forall i :: 0 <= i < |told| ==> Slice(s.doc, told[i].offset, told[i].data))
            && (forall i, j :: 0 <= i < j < |told| ==> DisjointRanges(told[i], told[j]))
  {
    RunKeepsInv(Start(doc), steps);
    var s := Run(Start(doc), steps);
    var c := s.clients[id];
    assert ClientInv(s, id, c);
    forall i, j | 0 <= i < j < |c.told| ensures DisjointRanges(c.told[i], c.told[j]) {
      assert TellInv(s, id, c, c.told[j]);
      if i > 0 {
        assert TellInv(s, id, c, c.told[i]);
        assert c.told[i].index.value != c.told[j].index.value;
      }
    }
    forall i | 0 <= i < |c.told| ensures Slice(s.doc, c.told[i].offset, c.told[i].data) {
      if i > 0 { assert TellInv(s, id, c, c.told[i]); }
    }
  }

  lemma {:induction false} RunAccounts(s: System, steps: seq<Step>, id: ClientId, skipped: set<nat>)
    requires Inv(s) && ValidRun(s, steps) && Accounted(s, id, skipped) && LostForGood(s, id, skipped)
    ensures Accounted(Run(s, steps), id, skipped + Skipped(s, steps, id))
    ensures LostForGood(Run(s, steps), id, skipped + Skipped(s, steps, id))
    decreases |steps|
  {
    if steps == [] {
      assert skipped + {} == skipped;
    } else {
      StepAccounts(s, steps[0], id, skipped);
      StepLoses(s, steps[0], id, skipped);
      StepKeepsInv(s, steps[0]);
      RunAccounts(Apply(s, steps[0]), steps[1..], id, skipped + Skip(s, steps[0], id));
      assert skipped + Skipped(s, steps, id) ==
             (skipped + Skip(s, steps[0], id)) + Skipped(Apply(s, steps[0]), steps[1..], id);
    }
  }

  /**
   For every interleaving of every call: of each append behind its snapshot a client is told, or
   the append is on its way to it, or the append was skipped, and of these three only one.
   */
  lemma {:induction false} EveryAppendIsAccountedFor(doc: Option<Bytes>, steps: seq<Step>, id: ClientId, k: nat)
    requires ValidRun(Start(doc), steps) && Behind(Run(Start(doc), steps), id, k)
    ensures var s := Run(Start(doc), steps); var skipped := k in Skipped(Start(doc), steps, id);
            && (IsTold(s.clients[id], k) || OnItsWay(s, id, k) || skipped)
            && !(IsTold(s.clients[id], k) && OnItsWay(s, id, k))
            && (skipped ==> !IsTold(s.clients[id], k) && !OnItsWay(s, id, k))
  {
    RunKeepsInv(Start(doc), steps);
    RunAccounts(Start(doc), steps, id, {});
    var s := Run(Start(doc), steps);
    var c := s.clients[id];
    assert ClientInv(s, id, c);
    assert {} + Skipped(Start(doc), steps, id) == Skipped(Start(doc), steps, id);
    if IsTold(c, k) {
      var i :| 1 <= i < |c.told| && c.told[i].index == Some(k);
      assert TellInv(s, id, c, c.told[i]);
    }
  }

  lemma {:induction false} RunIsContiguous(s: System, steps: seq<Step>, id: ClientId)
    requires Inv(s) && ValidRun(s, steps) && Contiguous(s) && SnapshotInv(s, id)
    ensures Contiguous(Run(s, steps)) && SnapshotInv(Run(s, steps), id)
    decreases |steps|
  {
    if steps != [] {
      StepKeepsInv(s, steps[0]);
      StepIsContiguous(s, steps[0]);
      StepKeepsSnapshot(s, steps[0], id);
      RunIsContiguous(Apply(s, steps[0]), steps[1..], id);
    }
  }

  /** Nothing is on its way to anybody. */
  ghost predicate Quiet(s: System) {
    && s.loop.None? && (forall k: nat :: Deliver(k) !in s.fifo)
    && (forall x, k: nat :: x in s.clients ==> !InHand(s.clients[x].phase, k))
  }

  /**
   Once nothing is on its way, exactly those clients have been told of the whole document for
   which no append behind their snapshot was skipped.
   */
  lemma {:induction false} WholeIffNothingSkipped(doc: Option<Bytes>, steps: seq<Step>, id: ClientId)
    requires ValidRun(Start(doc), steps)
    requires var s := Run(Start(doc), steps); Quiet(s) && id in s.clients && s.clients[id].told != []
    ensures var s := Run(Start(doc), steps);
            && s.doc.Some?
            && (ToldUpTo(s.clients[id], |s.doc.value|) <==>
                forall k: nat :: k in Skipped(Start(doc), steps, id) ==> !Behind(s, id, k))
  {
    var s := Run(Start(doc), steps);
    RunKeepsInv(Start(doc), steps);
    RunIsContiguous(Start(doc), steps, id);
    WholeIffAllTold(s, id);
    forall k: nat | Behind(s, id, k) ensures IsTold(s.clients[id], k) <==> k !in Skipped(Start(doc), steps, id) {
      EveryAppendIsAccountedFor(doc, steps, id, k);
      assert !OnItsWay(s, id, k);
    }
  }
}
