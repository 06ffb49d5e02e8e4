/** Runs of orderly steps skip nothing. */
module OrderlyRuns {
  import opened Base
  import opened FineProtocol
  import opened FineGaps
  import opened GapSteps
  import opened OrderlySteps

  ghost predicate OrderlyRun(s: System, steps: seq<Step>)
    requires ValidRun(s, steps)
    decreases |steps|
  {
    steps == [] || (Orderly(s, steps[0]) && OrderlyRun(Apply(s, steps[0]), steps[1..]))
  }

  lemma {:induction false} OrderlyRunSkipsNothing(s: System, steps: seq<Step>, id: ClientId)
    requires Inv(s) && ValidRun(s, steps) && OrderlyRun(s, steps) && InOrder(s) && OrderInv(s, id)
    requires Alive(Run(s, steps), id)
    ensures forall k: nat :: k in Skipped(s, steps, id) ==> !Behind(Run(s, steps), id, k)
    decreases |steps|
  {
    if steps != [] {
      var s' := Apply(s, steps[0]);
      StepKeepsInv(s, steps[0]);
      StepKeepsOrder(s, steps[0]);
      StepKeepsOrderInv(s, steps[0], id);
      OrderlyRunSkipsNothing(s', steps[1..], id);
      forall k: nat | k in Skip(s, steps[0], id) ensures !Behind(Run(s, steps), id, k) {
        SkippedIsSpent(s, steps[0], id, k);
        StepExtends(s, steps[0], id);
        RunExtends(s', steps[1..], id, k);
        NothingSkipped(s, steps[0], id, k);
      }
    }
  }

  lemma {:induction false} RunExtends(s: System, steps: seq<Step>, id: ClientId, k: nat)
    requires Inv(s) && ValidRun(s, steps) && id in s.clients && k < |s.log|
    ensures var s' := Run(s, steps);
            && id in s'.clients && (Behind(s', id, k) <==> Behind(s, id, k))
            && (s.clients[id].phase.Gone? ==> s'.clients[id].phase.Gone?)
    decreases |steps|
  {
    if steps != [] {
      StepKeepsInv(s, steps[0]);
      StepMoves(s, steps[0]);
      StepExtends(s, steps[0], id);
      BehindStays(s, steps[0], id, k);
      RunExtends(Apply(s, steps[0]), steps[1..], id, k);
    }
  }

  /**
   In an orderly run nothing is skipped for a connected client, so once nothing is on its way it
   has been told of the whole document.
   */
  lemma {:induction false} OrderlyRunTellsEverything(doc: Option<Bytes>, steps: seq<Step>, id: ClientId)
    requires ValidRun(Start(doc), steps) && OrderlyRun(Start(doc), steps)
    requires var s := Run(Start(doc), steps); Alive(s, id) && s.clients[id].told != []
    ensures var s := Run(Start(doc), steps);
            && s.doc.Some?
            && (forall k: nat :: k in Skipped(Start(doc), steps, id) ==> !Behind(s, id, k))
            && (Quiet(s) ==> ToldUpTo(s.clients[id], |s.doc.value|))
  {
    OrderlyRunSkipsNothing(Start(doc), steps, id);
    RunKeepsInv(Start(doc), steps);
    var s := Run(Start(doc), steps);
    assert ClientInv(s, id, s.clients[id]);
    if Quiet(s) {
      WholeIffNothingSkipped(doc, steps, id);
    }
  }
}
