/**
 Orderly steps of FineProtocol, what holds between them, and that each of them keeps it: the hub
 passes appends on in the order of the log, a client is registered before what it lacks is passed
 on, and what it lacks will pass the guard on lastEnd when its turn comes.
 */
module OrderlySteps {
  import opened Base
  import opened FineProtocol
  import opened GapSteps

  // ----- Order --------------------------------------------------------------------------

  /**
   The hub is called in the order of the log; an append with data is accepted only while nobody is
   between reading the document and asking to be registered, and its sender keeps the right to
   write; and who appends has been told of everything before.
   */
  ghost predicate Orderly(s: System, step: Step)
    requires Enabled(s, step)
  {
    match step
    case CallHub(id) => forall j :: 0 <= j < |s.log| && j < s.clients[id].phase.k ==> !Held(s, j)
    case Append(id, offset, data, may) =>
      var c := s.clients[id];
      Accepts(s, step) ==>
        && (may.before && data != [] ==> may.after && !Joining(s))
        && (may.after && c.told != [] ==> ToldUpTo(c, offset))
    case _ => true
  }

  /** Somebody has read the document and not yet asked the hub to be registered. */
  ghost predicate Joining(s: System) {
    exists x :: x in s.clients && (s.clients[x].phase.Fetched? || s.clients[x].phase.Greeted?)
  }

  /** The hub passes appends on in the order of the log, and those still held are newer than what it has. */
  ghost predicate InOrder(s: System) {
    && (forall p, q :: 0 <= p < q < |s.fifo| && s.fifo[p].Deliver? && s.fifo[q].Deliver? ==> s.fifo[p].k < s.fifo[q].k)
    && (s.loop.Some? ==> forall p :: 0 <= p < |s.fifo| && s.fifo[p].Deliver? ==> s.loop.value.k < s.fifo[p].k)
    && (forall j, p :: 0 <= j < |s.log| && Held(s, j) && 0 <= p < |s.fifo| && s.fifo[p].Deliver? ==> s.fifo[p].k < j)
    && (s.loop.Some? ==> forall j :: 0 <= j < |s.log| && Held(s, j) ==> s.loop.value.k < j)
  }

  /** What the hub has yet to pass on comes after the client's registration. */
  ghost predicate Registered(s: System, id: ClientId) {
    id in s.members ||
    exists p :: 0 <= p < |s.fifo| && s.fifo[p] == Register(id) &&
      forall q :: 0 <= q < p && s.fifo[q].Deliver? ==> !Behind(s, id, s.fifo[q].k)
  }

  /** The hub is just about to queue append k for the client. */
  predicate JustMarked(s: System, id: ClientId, k: nat) {
    s.loop.Some? && s.loop.value.k == k && s.loop.value.stage == Marked && s.loop.value.todo != [] && s.loop.value.todo[0] == id
  }

  /** The client lacks append k of somebody else. */
  predicate Lacks(s: System, id: ClientId, k: nat) {
    Behind(s, id, k) && s.log[k].source != id && !IsTold(s.clients[id], k)
  }

  /** Append k is on its way to the client, is newer than the client's own, and will pass the guard. */
  ghost predicate WillArrive(s: System, id: ClientId, k: nat)
    requires k < |s.log| && id in s.clients
  {
    var c := s.clients[id];
    && OnItsWay(s, id, k)
    && (forall j: nat :: InHand(c.phase, j) ==> j < k)
    && (c.lastEnd <= s.log[k].offset || JustMarked(s, id, k))
  }

  /** What is to hold of a client until it leaves. */
  ghost predicate OrderInv(s: System, id: ClientId) {
    id in s.clients && !s.clients[id].phase.Gone? ==>
      var c := s.clients[id];
      && c.lastEnd <= (if s.doc.Some? then |s.doc.value| else 0)
      && (c.phase.Fetched? || c.phase.Greeted? ==> forall k: nat :: !Behind(s, id, k))
      && (!c.phase.Fetched? && !c.phase.Greeted? ==> Registered(s, id))
      && (forall k: nat :: Lacks(s, id, k) ==> WillArrive(s, id, k))
  }

  lemma {:induction false} CallKeepsOrder(s: System, s': System, id: ClientId, k: nat)
    requires InOrder(s) && id in s.clients && InHand(s.clients[id].phase, k) && k < |s.log| && s.log[k].source == id
    requires s' == Set(s, id, s.clients[id].(phase := Ready)).(fifo := s.fifo + [Deliver(k)])
    requires forall j :: 0 <= j < k ==> !Held(s, j)
    ensures InOrder(s')
  {
    assert Held(s, k);
    assert forall j :: 0 <= j < |s.log| && Held(s', j) ==> Held(s, j) && j != k;
  }

  lemma {:induction false} CalledIsHeld(s: System, id: ClientId)
    requires ClientsInv(s) && Enabled(s, CallHub(id))
    ensures var k := s.clients[id].phase.k; InHand(s.clients[id].phase, k) && k < |s.log| && s.log[k].source == id
  {
    assert ClientInv(s, id, s.clients[id]);
    assert InHand(s.clients[id].phase, s.clients[id].phase.k);
  }

  /** The other steps of a client's goroutine call nothing. */
  lemma {:induction false} QuietStepKeepsOrder(s: System, step: Step)
    requires IsLocal(step) && !step.CallHub? && Enabled(s, step) && InOrder(s)
    ensures InOrder(Apply(s, step))
  {
    LocalStep(s, step);
    assert forall j :: 0 <= j < |s.log| && Held(Apply(s, step), j) ==> Held(s, j);
  }

  lemma {:induction false} LocalKeepsOrder(s: System, step: Step)
    requires ClientsInv(s) && IsLocal(step) && Enabled(s, step) && Orderly(s, step) && InOrder(s)
    ensures InOrder(Apply(s, step))
  {
    if step.CallHub? {
      CalledIsHeld(s, step.id);
      CallKeepsOrder(s, Apply(s, step), step.id, s.clients[step.id].phase.k);
    } else {
      QuietStepKeepsOrder(s, step);
    }
  }

  lemma {:induction false} TakingKeepsOrder(s: System, s': System, a: Accepted, p: Phase)
    requires HubInv(s) && Takes(s, s', a, p) && InOrder(s)
    ensures InOrder(s')
  {
    TakingKeepsHeld(s, s', a, p);
    assert forall i :: 0 <= i < |s.fifo| ==> s.fifo[i] in s.fifo;
  }

  lemma {:induction false} TakeKeepsOrder(s: System)
    requires Inv(s) && Enabled(s, HubTake) && InOrder(s)
    ensures InOrder(Apply(s, HubTake))
  {
    var s' := Apply(s, HubTake);
    assert forall j :: 0 <= j < |s.log| ==> Held(s', j) == Held(s, j);
    assert forall p :: 0 <= p < |s'.fifo| ==> s'.fifo[p] == s.fifo[p + 1];
  }

  lemma {:induction false} HubKeepsOrder(s: System, step: Step)
    requires Inv(s) && IsHubStep(step) && Enabled(s, step) && InOrder(s)
    ensures InOrder(Apply(s, step))
  {
    if step.HubTake? {
      TakeKeepsOrder(s);
    } else {
      assert forall j :: 0 <= j < |s.log| ==> Held(Apply(s, step), j) == Held(s, j);
    }
  }

  lemma {:induction false} StepKeepsOrder(s: System, step: Step)
    requires Inv(s) && Enabled(s, step) && Orderly(s, step) && InOrder(s)
    ensures InOrder(Apply(s, step))
  {
    if step.Fetch? {
      assert forall j :: 0 <= j < |s.log| ==> Held(Apply(s, step), j) == Held(s, j);
    } else if step.Append? {
      if Apply(s, step).log != s.log {
        AppendTakes(s, step);
        TakingKeepsOrder(s, Apply(s, step), Apply(s, step).log[|s.log|], Apply(s, step).clients[step.id].phase);
      }
    } else if IsHubStep(step) {
      HubKeepsOrder(s, step);
    } else {
      LocalKeepsOrder(s, step);
    }
  }

  // ----- One step of an orderly run -----------------------------------------------------

  predicate Alive(s: System, id: ClientId) { id in s.clients && !s.clients[id].phase.Gone? }

  /** An append with data has not been accepted by an orderly step while somebody was joining. */
  lemma {:induction false} NewBehind(s: System, step: Step, id: ClientId)
    requires Inv(s) && Enabled(s, step) && Orderly(s, step) && id in s.clients && |s.log| < |Apply(s, step).log|
    requires Behind(Apply(s, step), id, |s.log|)
    ensures step.Append? && Accepts(s, step) && step.may.after && !Joining(s)
  {
  }

  lemma {:induction false} NothingSkipped(s: System, step: Step, id: ClientId, k: nat)
    requires Inv(s) && Enabled(s, step) && Orderly(s, step) && Alive(s, id) && OrderInv(s, id)
    requires k in Skip(s, step, id)
    ensures !Behind(Apply(s, step), id, k)
  {
    if Behind(Apply(s, step), id, k) {
      if step.Append? {
        NewBehind(s, step, id);
      } else {
        BehindStays(s, step, id, k);
        SkippedIsNotTold(s, step, id, k);
        assert Lacks(s, id, k);
      }
      assert false;
    }
  }

  /** What a client still lacks after a step it lacked before, or has just been accepted. */
  lemma {:induction false} LackedBefore(s: System, step: Step, id: ClientId, k: nat)
    requires Inv(s) && Enabled(s, step) && id in s.clients && k < |s.log|
    requires Lacks(Apply(s, step), id, k)
    ensures Lacks(s, id, k)
  {
    StepMoves(s, step);
    BehindStays(s, step, id, k);
    if IsTold(s.clients[id], k) {
      ToldStays(s, step, id, k);
    }
  }

  /** It is still on its way. */
  lemma {:induction false} LackedIsOnItsWay(s: System, step: Step, id: ClientId, k: nat)
    requires Inv(s) && Enabled(s, step) && Orderly(s, step) && Alive(s, id) && OrderInv(s, id)
    requires k < |s.log| && Lacks(Apply(s, step), id, k)
    ensures id in Apply(s, step).clients && k < |Apply(s, step).log| && OnItsWay(Apply(s, step), id, k)
  {
    LackedBefore(s, step, id, k);
    FateInStep(s, step, id, k);
    if k in Skip(s, step, id) {
      NothingSkipped(s, step, id, k);
    }
  }

  /** Who appends lacks nothing. */
  lemma {:induction false} WriterLacksNothing(s: System, step: Step, k: nat)
    requires Inv(s) && step.Append? && Enabled(s, step) && Orderly(s, step) && Accepts(s, step) && step.may.after
    requires k < |s.log|
    ensures !Lacks(s, step.id, k)
  {
    var c := s.clients[step.id];
    assert ClientInv(s, step.id, c);
    if Behind(s, step.id, k) {
      var b := s.log[k].offset;
      assert Slice(s.doc, b, s.log[k].data);
      assert CoversSome(c, b);
      var i :| 0 <= i < |c.told| && Covers(c.told[i], b);
      CoveredIsTold(s, step.id, k, b, i);
    }
  }

  /** The client's own append is older than what it lacks. */
  lemma {:induction false} LackedIsNewer(s: System, step: Step, id: ClientId, k: nat, j: nat)
    requires Inv(s) && Enabled(s, step) && Orderly(s, step) && Alive(s, id) && OrderInv(s, id)
    requires k < |s.log| && Lacks(Apply(s, step), id, k)
    requires id in Apply(s, step).clients && InHand(Apply(s, step).clients[id].phase, j)
    ensures j < k
  {
    LackedBefore(s, step, id, k);
    if step.Append? && step.id == id && Accepts(s, step) && step.may.after {
      WriterLacksNothing(s, step, k);
    } else {
      assert InHand(s.clients[id].phase, j);
    }
  }

  lemma {:induction false} LogGrows(s: System, j: nat, k: nat)
    requires LogInv(s) && j < k < |s.log|
    ensures End(s.log[j]) <= s.log[k].offset
  {
  }

  /** When the client's own append moves lastEnd. */
  lemma {:induction false} OwnEndIsBelow(s: System, id: ClientId, k: nat)
    requires Inv(s) && Enabled(s, SetLastEnd(id)) && OrderInv(s, id) && Lacks(s, id, k)
    ensures Apply(s, SetLastEnd(id)).clients[id].lastEnd <= s.log[k].offset
  {
    var c := s.clients[id];
    assert ClientInv(s, id, c);
    assert InHand(c.phase, c.phase.k);
    LogGrows(s, c.phase.k, k);
  }

  /** When the hub moves lastEnd for another append. */
  lemma {:induction false} HubEndIsBelow(s: System, id: ClientId, k: nat)
    requires LogInv(s) && Enabled(s, HubMark) && InOrder(s) && k < |s.log| && id in s.clients
    requires OnItsWay(s, id, k) && s.log[k].source != id && s.loop.value.k != k
    ensures End(s.log[s.loop.value.k]) <= s.log[k].offset
  {
    assert Deliver(k) in s.fifo ==> exists p :: 0 <= p < |s.fifo| && s.fifo[p] == Deliver(k);
    LogGrows(s, s.loop.value.k, k);
  }

  /** When the hub queues the append at hand. */
  lemma {:induction false} MarkedIsTold(s: System, id: ClientId, k: nat)
    requires id in s.clients && s.clients[id].told != [] && Enabled(s, HubQueue) && JustMarked(s, id, k)
    ensures id in Apply(s, HubQueue).clients && IsTold(Apply(s, HubQueue).clients[id], k)
  {
    LastTold(Apply(s, HubQueue).clients[id], k);
  }

  /** In any other step lastEnd stays, and so does what the hub is about to do. */
  lemma {:induction false} GuardStays(s: System, step: Step, id: ClientId, k: nat)
    requires Enabled(s, step) && Alive(s, id) && k < |s.log|
    requires s.clients[id].lastEnd <= s.log[k].offset || JustMarked(s, id, k)
    requires !step.HubQueue? && !step.Greet? && !step.Fetch?
    requires !(step.SetLastEnd? && step.id == id) && !(step.HubMark? && s.loop.value.todo[0] == id)
    ensures var s' := Apply(s, step);
            id in s'.clients && k < |s'.log| && s'.log[k] == s.log[k] &&
            (s'.clients[id].lastEnd <= s.log[k].offset || JustMarked(s', id, k))
  {
  }

  /** It will pass the guard. */
  lemma {:induction false} LackedWillPass(s: System, step: Step, id: ClientId, k: nat)
    requires Inv(s) && Enabled(s, step) && Orderly(s, step) && Alive(s, id) && OrderInv(s, id) && InOrder(s)
    requires k < |s.log| && Lacks(Apply(s, step), id, k)
    ensures var s' := Apply(s, step);
            id in s'.clients && k < |s'.log| && (s'.clients[id].lastEnd <= s'.log[k].offset || JustMarked(s', id, k))
  {
    LackedBefore(s, step, id, k);
    StepMoves(s, step);
    if step.SetLastEnd? && step.id == id {
      OwnEndIsBelow(s, id, k);
    } else if step.HubMark? && s.loop.value.todo[0] == id {
      if s.loop.value.k != k {
        HubEndIsBelow(s, id, k);
      }
    } else if step.HubQueue? {
      if JustMarked(s, id, k) {
        assert ClientInv(s, id, s.clients[id]) && Joined(s, id);
        MarkedIsTold(s, id, k);
      }
    } else if !step.Greet? && !step.Fetch? {
      GuardStays(s, step, id, k);
    }
  }

  /** The append accepted now is on its way to everybody who is connected, and will pass the guard. */
  lemma {:induction false} NewIsLackedWell(s: System, step: Step, id: ClientId)
    requires Inv(s) && Enabled(s, step) && Orderly(s, step) && Alive(s, id) && OrderInv(s, id)
    requires |s.log| < |Apply(s, step).log| && Lacks(Apply(s, step), id, |s.log|)
    ensures var s' := Apply(s, step);
            && id in s'.clients && OnItsWay(s', id, |s.log|)
            && s'.clients[id].lastEnd <= s'.log[|s.log|].offset
            && forall j: nat :: InHand(s'.clients[id].phase, j) ==> j < |s.log|
  {
    StepMoves(s, step);
    assert ClientInv(s, id, s.clients[id]);
    NewBehind(s, step, id);
    NewAppend(s, step, id);
  }

  /** What the client is connected to. */
  lemma {:induction false} StaysRegistered(s: System, step: Step, id: ClientId)
    requires Inv(s) && Enabled(s, step) && id in s.clients && Registered(s, id) && Alive(Apply(s, step), id)
    ensures Registered(Apply(s, step), id)
  {
    var s' := Apply(s, step);
    StepExtends(s, step, id);
    if step.HubTake? {
      assert s.fifo[0] in s.fifo;
      WithoutIsSubsequence(s.members, if s.fifo[0].Unregister? then s.fifo[0].id else "");
    }
    if id !in s.members && id !in s'.members {
      var p :| 0 <= p < |s.fifo| && s.fifo[p] == Register(id) &&
        forall q :: 0 <= q < p && s.fifo[q].Deliver? ==> !Behind(s, id, s.fifo[q].k);
      var p' := if step.HubTake? then p - 1 else p;
      assert s'.fifo[p'] == Register(id);
      forall q | 0 <= q < p' && s'.fifo[q].Deliver? ensures !Behind(s', id, s'.fifo[q].k) {
        var old_q := if step.HubTake? then q + 1 else q;
        assert s'.fifo[q] == s.fifo[old_q] && s.fifo[old_q] in s.fifo;
        BehindStays(s, step, id, s.fifo[old_q].k);
      }
    }
  }

  lemma {:induction false} JoinRegisters(s: System, step: Step)
    requires Inv(s) && step.Join? && Enabled(s, step) && OrderInv(s, step.id)
    ensures Registered(Apply(s, step), step.id)
  {
    var s', p := Apply(s, step), |s.fifo|;
    assert s'.fifo[p] == Register(step.id);
    forall q | 0 <= q < p && s'.fifo[q].Deliver? ensures !Behind(s', step.id, s'.fifo[q].k) {
      assert s'.fifo[q] == s.fifo[q] && s.fifo[q] in s.fifo;
      BehindStays(s, step, step.id, s.fifo[q].k);
    }
  }

  /** An append accepted now has no data for somebody who is joining. */
  lemma {:induction false} NewIsNotBehindJoining(s: System, step: Step, id: ClientId)
    requires Inv(s) && Enabled(s, step) && Orderly(s, step) && id in s.clients && |s.log| < |Apply(s, step).log|
    requires s.clients[id].phase.Fetched? || s.clients[id].phase.Greeted?
    ensures !Behind(Apply(s, step), id, |s.log|)
  {
    if Behind(Apply(s, step), id, |s.log|) {
      NewBehind(s, step, id);
    }
  }

  lemma {:induction false} JoiningBefore(s: System, step: Step, id: ClientId)
    requires Enabled(s, step) && id in s.clients && id in Apply(s, step).clients
    requires var c := Apply(s, step).clients[id]; c.phase.Fetched? || c.phase.Greeted?
    ensures s.clients[id].phase.Fetched? || s.clients[id].phase.Greeted?
  {
  }

  /** Somebody who is joining lacks nothing. */
  lemma {:induction false} JoiningLacksNothing(s: System, step: Step, id: ClientId, k: nat)
    requires Inv(s) && Enabled(s, step) && Orderly(s, step) && OrderInv(s, id) && Alive(Apply(s, step), id)
    requires var c := Apply(s, step).clients[id]; c.phase.Fetched? || c.phase.Greeted?
    ensures !Behind(Apply(s, step), id, k)
  {
    if id !in s.clients {
      NothingBehindYet(s, step, id, k);
    } else {
      JoiningBefore(s, step, id);
      if k < |s.log| {
        BehindStays(s, step, id, k);
      } else if k < |Apply(s, step).log| {
        StepMoves(s, step);
        NewIsNotBehindJoining(s, step, id);
      }
    }
  }

  /** A step that moves lastEnd of a client moves it to the end of an append, or of the snapshot. */
  lemma {:induction false} LastEndMoves(s: System, step: Step, id: ClientId)
    requires LogInv(s) && ClientsInv(s) && Enabled(s, step) && id in s.clients && id in Apply(s, step).clients
    requires Apply(s, step).clients[id].lastEnd != s.clients[id].lastEnd
    ensures s.doc.Some? && Apply(s, step).clients[id].lastEnd <= |s.doc.value|
  {
    assert ClientInv(s, id, s.clients[id]);
    if step.SetLastEnd? {
      assert Slice(s.doc, s.log[s.clients[id].phase.k].offset, s.log[s.clients[id].phase.k].data);
    } else if step.HubMark? {
      assert Slice(s.doc, s.log[s.loop.value.k].offset, s.log[s.loop.value.k].data);
    }
  }

  lemma {:induction false} LastEndIsInDocument(s: System, step: Step, id: ClientId)
    requires LogInv(s) && ClientsInv(s) && Enabled(s, step) && OrderInv(s, id) && Alive(Apply(s, step), id)
    requires id in s.clients ==> Alive(s, id)
    ensures var s' := Apply(s, step); s'.clients[id].lastEnd <= if s'.doc.Some? then |s'.doc.value| else 0
  {
    StepMoves(s, step);
    if id in s.clients && Apply(s, step).clients[id].lastEnd != s.clients[id].lastEnd {
      LastEndMoves(s, step, id);
    }
  }

  lemma {:induction false} LackedWillArrive(s: System, step: Step, id: ClientId, k: nat)
    requires Inv(s) && Enabled(s, step) && Orderly(s, step) && InOrder(s) && Alive(s, id) && OrderInv(s, id)
    requires Lacks(Apply(s, step), id, k)
    ensures WillArrive(Apply(s, step), id, k)
  {
    if k < |s.log| {
      LackedIsOnItsWay(s, step, id, k);
      LackedWillPass(s, step, id, k);
      forall j: nat | InHand(Apply(s, step).clients[id].phase, j) ensures j < k {
        LackedIsNewer(s, step, id, k, j);
      }
    } else {
      StepMoves(s, step);
      NewIsLackedWell(s, step, id);
    }
  }

  lemma {:induction false} StaysOrJoins(s: System, step: Step, id: ClientId)
    requires Inv(s) && Enabled(s, step) && OrderInv(s, id) && Alive(s, id) && Alive(Apply(s, step), id)
    requires var c := Apply(s, step).clients[id]; !c.phase.Fetched? && !c.phase.Greeted?
    ensures Registered(Apply(s, step), id)
  {
    if step.Join? && step.id == id {
      JoinRegisters(s, step);
    } else {
      StaysRegistered(s, step, id);
    }
  }

  lemma {:induction false} AliveBefore(s: System, step: Step, id: ClientId)
    requires Inv(s) && Enabled(s, step) && Alive(Apply(s, step), id)
    ensures Alive(s, id) || (id !in s.clients && Apply(s, step).clients[id].phase.Fetched?)
  {
    if id in s.clients {
      StepExtends(s, step, id);
    }
  }

  lemma {:induction false} StepKeepsOrderInv(s: System, step: Step, id: ClientId)
    requires Inv(s) && Enabled(s, step) && Orderly(s, step) && InOrder(s) && OrderInv(s, id)
    ensures OrderInv(Apply(s, step), id)
  {
    var s' := Apply(s, step);
    if Alive(s', id) {
      AliveBefore(s, step, id);
      LastEndIsInDocument(s, step, id);
      if s'.clients[id].phase.Fetched? || s'.clients[id].phase.Greeted? {
        forall k: nat ensures !Behind(s', id, k) {
          JoiningLacksNothing(s, step, id, k);
        }
      } else {
        StaysOrJoins(s, step, id);
        forall k: nat | Lacks(s', id, k) ensures WillArrive(s', id, k) {
          LackedWillArrive(s, step, id, k);
        }
      }
    }
  }
}
