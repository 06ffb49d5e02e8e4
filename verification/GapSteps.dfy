/**
 What becomes of one append and one client in one step of FineProtocol: who is told, what is skipped,
 what stays as it was; and which bytes of the document a client has been told of.  Whole runs are in
 FineGaps; here are the invariants that each step keeps, and what holds in a single state by them.
 */
module GapSteps {
  import opened Base
  import opened FineProtocol

  /** Where the snapshot of the document ends that a client has been or will be sent. */
  function Snapshot(c: Client): Option<nat> {
    if c.told != [] then Some(SnapshotEnd(c))
    else if c.phase.Fetched? then Some(c.phase.offset + |c.phase.data|)
    else None
  }

  /** Append k has data that the snapshot of `id` does not hold. */
  predicate Behind(s: System, id: ClientId, k: nat) {
    && k < |s.log| && s.log[k].data != []
    && id in s.clients && Snapshot(s.clients[id]).Some? && Snapshot(s.clients[id]).value <= s.log[k].offset
  }

  predicate IsTold(c: Client, k: nat) { exists i :: 1 <= i < |c.told| && c.told[i].index == Some(k) }

  /** The client will be told of append k: as its own, or through the hub. */
  predicate OnItsWay(s: System, id: ClientId, k: nat)
    requires k < |s.log| && id in s.clients
  {
    if s.log[k].source == id then s.clients[id].phase == Accepting(k)
    else
      || Held(s, k) || Deliver(k) in s.fifo
      || (s.loop.Some? && s.loop.value.k == k && id in s.loop.value.todo)
  }

  /**
   The append a step skips for `id`: the hub begins to pass it on while `id` is not a member, the
   guard on lastEnd drops it, or its sender loses the right to write before calling the hub.
   */
  function Skip(s: System, step: Step, id: ClientId): set<nat>
    requires Enabled(s, step)
  {
    if id !in s.clients then {}
    else
      match step
      case HubTake =>
        var c := s.fifo[0];
        if c.Deliver? && c.k < |s.log| && s.log[c.k].source != id && id !in s.members then {c.k} else {}
      case HubCheck =>
        var l := s.loop.value;
        if l.todo[0] == id && s.log[l.k].source != id && s.log[l.k].offset < s.clients[id].lastEnd then {l.k} else {}
      case Append(_, _, _, may) => if Accepts(s, step) && !may.after then {|s.log|} else {}
      case _ => {}
  }

  predicate Accepts(s: System, step: Step) {
    step.Append? && s.doc.Some? && |s.doc.value| == step.offset
  }

  ghost predicate Accounted(s: System, id: ClientId, skipped: set<nat>) {
    forall k: nat :: Behind(s, id, k) ==> IsTold(s.clients[id], k) || OnItsWay(s, id, k) || k in skipped
  }

  /** What was skipped is neither told nor on its way, and stays so. */
  ghost predicate LostForGood(s: System, id: ClientId, skipped: set<nat>) {
    forall k :: k in skipped ==>
      && k < |s.log| && Spent(s, id, k)
      && (id in s.clients ==> !IsTold(s.clients[id], k) && s.clients[id].phase != Accepting(k))
  }

  // ----- What a step leaves as it was ---------------------------------------------------

  /** The client has been told more, and its snapshot is the same. */
  predicate Extends(c: Client, c': Client) {
    && c.told <= c'.told && Snapshot(c') == Snapshot(c)
    && (c.phase.Gone? ==> c'.phase.Gone?)
  }

  lemma {:induction false} ToldOneMore(c: Client, c': Client, t: Told)
    requires c.told != [] && c'.told == c.told + [t] && (c.phase.Gone? ==> c'.phase.Gone?)
    ensures Extends(c, c')
  {
    assert c'.told[0] == c.told[0];
  }

  /** The document and the log stay, but for a document that is created; or one append is accepted. */
  predicate Moves(s: System, s': System) {
    || (s'.log == s.log && (s.doc.Some? ==> s'.doc == s.doc))
    || (s.doc.Some? && |s'.log| == |s.log| + 1 && s'.log[..|s.log|] == s.log
        && var a := s'.log[|s.log|]; a.offset == |s.doc.value| && s'.doc == Some(s.doc.value + a.data))
  }

  lemma {:induction false} StepMoves(s: System, step: Step)
    requires Enabled(s, step)
    ensures Moves(s, Apply(s, step))
  {
    if step.Append? && Apply(s, step).log != s.log {
      assert Apply(s, step).log[..|s.log|] == s.log;
    }
  }

  lemma {:induction false} TellingExtends(s: System, step: Step, id: ClientId)
    requires Inv(s) && Enabled(s, step) && id in s.clients && (step.QueueAck? || step.HubQueue?)
    ensures id in Apply(s, step).clients && Extends(s.clients[id], Apply(s, step).clients[id])
  {
    var c, c' := s.clients[id], Apply(s, step).clients[id];
    assert ClientInv(s, id, c);
    if c'.told != c.told {
      assert step.HubQueue? ==> Joined(s, id);
      ToldOneMore(c, c', c'.told[|c.told|]);
    }
  }

  lemma {:induction false} OthersExtend(s: System, step: Step, id: ClientId)
    requires id in s.clients && ClientInv(s, id, s.clients[id]) && Enabled(s, step) && !step.QueueAck? && !step.HubQueue?
    ensures id in Apply(s, step).clients && Extends(s.clients[id], Apply(s, step).clients[id])
  {
  }

  lemma {:induction false} StepExtends(s: System, step: Step, id: ClientId)
    requires Inv(s) && Enabled(s, step) && id in s.clients
    ensures var s' := Apply(s, step); id in s'.clients && Extends(s.clients[id], s'.clients[id])
  {
    if step.QueueAck? || step.HubQueue? {
      TellingExtends(s, step, id);
    } else {
      OthersExtend(s, step, id);
    }
  }

  lemma {:induction false} BehindStays(s: System, step: Step, id: ClientId, k: nat)
    requires Inv(s) && Enabled(s, step) && id in s.clients && k < |s.log|
    ensures Behind(Apply(s, step), id, k) <==> Behind(s, id, k)
  {
    StepMoves(s, step);
    StepExtends(s, step, id);
    assert ClientInv(s, id, s.clients[id]);
  }

  lemma {:induction false} ToldStays(s: System, step: Step, id: ClientId, k: nat)
    requires Inv(s) && Enabled(s, step) && id in s.clients && IsTold(s.clients[id], k)
    ensures IsTold(Apply(s, step).clients[id], k)
  {
    StepExtends(s, step, id);
    var c, c' := s.clients[id], Apply(s, step).clients[id];
    var i :| 1 <= i < |c.told| && c.told[i].index == Some(k);
    assert c'.told[i] == c.told[i];
  }

  // ----- Every append is accounted for --------------------------------------------------

  /** What happens to append k, not yet told, in one step. */
  ghost predicate Fate(s: System, step: Step, id: ClientId, k: nat)
    requires Enabled(s, step) && k < |s.log| && k < |Apply(s, step).log| && id in Apply(s, step).clients
  {
    var s' := Apply(s, step);
    IsTold(s'.clients[id], k) || OnItsWay(s', id, k) || k in Skip(s, step, id)
  }

  lemma {:induction false} LastTold(c: Client, k: nat)
    requires |c.told| >= 2 && c.told[|c.told| - 1].index == Some(k)
    ensures IsTold(c, k)
  {
  }

  lemma {:induction false} FateInLocal(s: System, step: Step, id: ClientId, k: nat)
    requires Inv(s) && IsLocal(step) && Enabled(s, step) && id in s.clients && k < |s.log| && OnItsWay(s, id, k)
    ensures Fate(s, step, id, k)
  {
    var c := s.clients[step.id];
    assert ClientInv(s, step.id, c) && ClientInv(s, id, s.clients[id]);
    if step.QueueAck? && step.id == id && c.phase.k == k {
      assert InHand(c.phase, k);
      LastTold(Apply(s, step).clients[id], k);
    }
  }

  lemma {:induction false} FateInAppend(s: System, step: Step, id: ClientId, k: nat)
    requires Inv(s) && step.Append? && Enabled(s, step) && id in s.clients && k < |s.log| && OnItsWay(s, id, k)
    ensures Fate(s, step, id, k)
  {
  }

  predicate IsHubStep(step: Step) { step.HubTake? || step.HubCheck? || step.HubMark? || step.HubQueue? || step.HubDone? }

  lemma {:induction false} FateInHub(s: System, step: Step, id: ClientId, k: nat)
    requires Inv(s) && IsHubStep(step) && Enabled(s, step)
    requires id in s.clients && k < |s.log| && OnItsWay(s, id, k)
    ensures Fate(s, step, id, k)
  {
    var s' := Apply(s, step);
    assert ClientInv(s, id, s.clients[id]);
    assert Held(s', k) == Held(s, k);
    if step.HubTake? {
      TailDistinct(s.fifo);
    } else if step.HubCheck? || step.HubQueue? {
      var todo := s.loop.value.todo;
      TailDistinct(todo);
      if step.HubQueue? && s.loop.value.k == k && todo[0] == id {
        assert Joined(s, id);
        LastTold(s'.clients[id], k);
      }
    }
  }

  lemma {:induction false} FateInStep(s: System, step: Step, id: ClientId, k: nat)
    requires Inv(s) && Enabled(s, step) && id in s.clients && k < |s.log| && OnItsWay(s, id, k)
    ensures k < |Apply(s, step).log| && id in Apply(s, step).clients && Fate(s, step, id, k)
  {
    StepMoves(s, step);
    StepExtends(s, step, id);
    match step
    case Fetch(_, _, _, _) =>
    case Append(_, _, _, _) => FateInAppend(s, step, id, k);
    case _ =>
      if IsHubStep(step) { FateInHub(s, step, id, k); } else { FateInLocal(s, step, id, k); }
  }

  /** An append that is accepted now is held by its sender, or skipped for everybody. */
  lemma {:induction false} NewAppend(s: System, step: Step, id: ClientId)
    requires Enabled(s, step) && Apply(s, step).log != s.log && id in s.clients
    ensures var s' := Apply(s, step);
            Accepts(s, step) && |s'.log| == |s.log| + 1 && s'.log[|s.log|].source == step.id && step.id in s'.clients
    ensures id in Apply(s, step).clients &&
            (OnItsWay(Apply(s, step), id, |s.log|) || |s.log| in Skip(s, step, id))
  {
  }

  /** A client that has just read the document lacks nothing. */
  lemma {:induction false} NothingBehindYet(s: System, step: Step, id: ClientId, k: nat)
    requires Inv(s) && Enabled(s, step) && id !in s.clients
    ensures !Behind(Apply(s, step), id, k)
  {
    if step.Fetch? && step.id == id && k < |s.log| {
      assert Slice(s.doc, s.log[k].offset, s.log[k].data);
    }
  }

  lemma {:induction false} StepAccounts(s: System, step: Step, id: ClientId, skipped: set<nat>)
    requires Inv(s) && Enabled(s, step) && Accounted(s, id, skipped)
    ensures Accounted(Apply(s, step), id, skipped + Skip(s, step, id))
  {
    var s' := Apply(s, step);
    forall k: nat | Behind(s', id, k)
      ensures IsTold(s'.clients[id], k) || OnItsWay(s', id, k) || k in skipped + Skip(s, step, id)
    {
      if id !in s.clients {
        NothingBehindYet(s, step, id, k);
      } else if k < |s.log| {
        BehindStays(s, step, id, k);
        if IsTold(s.clients[id], k) {
          ToldStays(s, step, id, k);
        } else if OnItsWay(s, id, k) {
          FateInStep(s, step, id, k);
        }
      } else {
        NewAppend(s, step, id);
      }
    }
  }

  // ----- What is skipped stays skipped --------------------------------------------------

  lemma {:induction false} SpentStaysInHub(s: System, step: Step, id: ClientId, k: nat)
    requires Inv(s) && IsHubStep(step) && Enabled(s, step) && k < |s.log| && Spent(s, id, k)
    ensures k < |Apply(s, step).log| && Spent(Apply(s, step), id, k)
  {
    assert Held(Apply(s, step), k) == Held(s, k);
    if step.HubTake? {
      TailDistinct(s.fifo);
    } else if step.HubCheck? || step.HubQueue? {
      TailDistinct(s.loop.value.todo);
    }
  }

  lemma {:induction false} SpentStays(s: System, step: Step, id: ClientId, k: nat)
    requires Inv(s) && Enabled(s, step) && k < |s.log| && Spent(s, id, k)
    ensures k < |Apply(s, step).log| && Spent(Apply(s, step), id, k)
  {
    if IsHubStep(step) {
      SpentStaysInHub(s, step, id, k);
    }
  }

  lemma {:induction false} SkippedIsSpent(s: System, step: Step, id: ClientId, k: nat)
    requires Inv(s) && Enabled(s, step) && k in Skip(s, step, id)
    ensures id in s.clients && k < |Apply(s, step).log| && Spent(Apply(s, step), id, k)
  {
    match step {
      case HubTake => TailDistinct(s.fifo);
      case HubCheck => TailDistinct(s.loop.value.todo);
      case _ =>
    }
  }

  /** A spent append is not what a step tells a client of. */
  lemma {:induction false} SpentIsNotNews(s: System, step: Step, id: ClientId, k: nat)
    requires Inv(s) && (step.QueueAck? || step.HubQueue?) && Enabled(s, step) && id in s.clients
    requires k < |s.log| && Spent(s, id, k) && !IsTold(s.clients[id], k) && s.clients[id].phase != Accepting(k)
    ensures var s' := Apply(s, step); id in s'.clients && !IsTold(s'.clients[id], k) && s'.clients[id].phase != Accepting(k)
  {
    var c, c' := s.clients[id], Apply(s, step).clients[id];
    assert ClientInv(s, id, c);
    forall i | 1 <= i < |c'.told| ensures c'.told[i].index != Some(k) {
      if i < |c.told| {
        assert c'.told[i] == c.told[i];
      }
    }
  }

  lemma {:induction false} SpentIsNotTold(s: System, step: Step, id: ClientId, k: nat)
    requires Inv(s) && Enabled(s, step) && k < |s.log| && Spent(s, id, k)
    requires id in s.clients ==> !IsTold(s.clients[id], k) && s.clients[id].phase != Accepting(k)
    ensures var s' := Apply(s, step);
            id in s'.clients ==> !IsTold(s'.clients[id], k) && s'.clients[id].phase != Accepting(k)
  {
    if id in s.clients {
      if step.QueueAck? || step.HubQueue? {
        SpentIsNotNews(s, step, id, k);
      } else {
        assert ClientInv(s, id, s.clients[id]);
      }
    }
  }

  /** What a step skips was not told before. */
  lemma {:induction false} SkippedIsNotTold(s: System, step: Step, id: ClientId, k: nat)
    requires Inv(s) && Enabled(s, step) && k in Skip(s, step, id)
    ensures var c := Apply(s, step).clients[id]; id in s.clients && id in Apply(s, step).clients && !IsTold(c, k) && c.phase != Accepting(k)
  {
    var c, c' := s.clients[id], Apply(s, step).clients[id];
    assert ClientInv(s, id, c);
    StepExtends(s, step, id);
    assert c'.told == c.told;
    if step.HubTake? {
      assert s.fifo[0] in s.fifo;
    }
    forall i | 1 <= i < |c.told| ensures c.told[i].index != Some(k) {
      assert TellInv(s, id, c, c.told[i]);
    }
    assert !InHand(c.phase, k);
  }

  lemma {:induction false} StepLoses(s: System, step: Step, id: ClientId, skipped: set<nat>)
    requires Inv(s) && Enabled(s, step) && LostForGood(s, id, skipped)
    ensures LostForGood(Apply(s, step), id, skipped + Skip(s, step, id))
  {
    forall k | k in skipped + Skip(s, step, id)
      ensures var s' := Apply(s, step);
              && k < |s'.log| && Spent(s', id, k)
              && (id in s'.clients ==> !IsTold(s'.clients[id], k) && s'.clients[id].phase != Accepting(k))
    {
      if k in skipped {
        SpentStays(s, step, id, k);
        SpentIsNotTold(s, step, id, k);
      } else {
        SkippedIsSpent(s, step, id, k);
        SkippedIsNotTold(s, step, id, k);
      }
    }
  }

  // ----- The whole document -------------------------------------------------------------

  predicate Covers(t: Told, b: nat) { t.offset <= b < t.offset + |t.data| }

  predicate CoversSome(c: Client, b: nat) { exists i :: 0 <= i < |c.told| && Covers(c.told[i], b) }

  /** The client has been told of every byte from where its snapshot starts up to `end`. */
  ghost predicate ToldUpTo(c: Client, end: nat)
    requires c.told != []
  {
    forall b: nat :: c.told[0].offset <= b < end ==> CoversSome(c, b)
  }

  /** The appends follow one another from where the first began to the end of the document. */
  ghost predicate Contiguous(s: System) {
    && (forall k :: 0 < k < |s.log| ==> s.log[k].offset == End(s.log[k - 1]))
    && (s.log != [] ==> s.doc.Some? && End(s.log[|s.log| - 1]) == |s.doc.value|)
  }

  /** A snapshot reaches at least to where the first append began, and cuts no append in two. */
  ghost predicate SnapshotInv(s: System, id: ClientId) {
    id in s.clients && Snapshot(s.clients[id]).Some? ==>
      var end := Snapshot(s.clients[id]).value;
      && s.doc.Some? && (if s.log == [] then |s.doc.value| else s.log[0].offset) <= end <= |s.doc.value|
      && forall k :: 0 <= k < |s.log| ==> End(s.log[k]) <= end || end <= s.log[k].offset
  }

  lemma {:induction false} MoveIsContiguous(s: System, s': System)
    requires Moves(s, s') && Contiguous(s) && LogInv(s)
    requires s.log == [] || s.doc.Some?
    ensures Contiguous(s')
  {
    assert s'.log != s.log ==> forall k :: 0 <= k < |s.log| ==> s'.log[k] == s'.log[..|s.log|][k];
  }

  lemma {:induction false} MoveKeepsSnapshot(s: System, s': System, id: ClientId)
    requires Moves(s, s') && SnapshotInv(s, id) && id in s.clients && id in s'.clients
    requires Snapshot(s'.clients[id]) == Snapshot(s.clients[id])
    ensures SnapshotInv(s', id)
  {
    assert s'.log != s.log ==> forall k :: 0 <= k < |s.log| ==> s'.log[k] == s'.log[..|s.log|][k];
  }

  lemma {:induction false} FetchTakesSnapshot(s: System, step: Step)
    requires LogInv(s) && step.Fetch? && Enabled(s, step)
    ensures SnapshotInv(Apply(s, step), step.id)
  {
    assert forall k :: 0 <= k < |s.log| ==> Slice(s.doc, s.log[k].offset, s.log[k].data);
  }

  lemma {:induction false} StepIsContiguous(s: System, step: Step)
    requires LogInv(s) && Enabled(s, step) && Contiguous(s)
    ensures Contiguous(Apply(s, step))
  {
    StepMoves(s, step);
    assert s.log != [] ==> Slice(s.doc, s.log[0].offset, s.log[0].data);
    MoveIsContiguous(s, Apply(s, step));
  }

  lemma {:induction false} StepKeepsSnapshot(s: System, step: Step, id: ClientId)
    requires Inv(s) && Enabled(s, step) && SnapshotInv(s, id)
    ensures SnapshotInv(Apply(s, step), id)
  {
    if id in s.clients {
      StepMoves(s, step);
      StepExtends(s, step, id);
      MoveKeepsSnapshot(s, Apply(s, step), id);
    } else if step.Fetch? && step.id == id {
      FetchTakesSnapshot(s, step);
    } else {
      assert id !in Apply(s, step).clients;
    }
  }

  /** The append that wrote byte b. */
  lemma {:induction false} WriterOf(s: System, b: nat, n: nat) returns (k: nat)
    requires Contiguous(s) && n <= |s.log| && n > 0 && s.log[0].offset <= b < End(s.log[n - 1])
    ensures k < n && s.log[k].offset <= b < End(s.log[k])
    decreases n
  {
    if s.log[n - 1].offset <= b {
      k := n - 1;
    } else {
      k := WriterOf(s, b, n - 1);
    }
  }

  /** A told range that covers a byte of append k, behind the snapshot, is append k. */
  lemma {:induction false} CoveredIsTold(s: System, id: ClientId, k: nat, b: nat, i: nat)
    requires Inv(s) && Behind(s, id, k) && s.log[k].offset <= b < End(s.log[k])
    requires i < |s.clients[id].told| && Covers(s.clients[id].told[i], b)
    ensures IsTold(s.clients[id], k)
  {
    var c := s.clients[id];
    assert ClientInv(s, id, c);
    if i > 0 {
      assert TellInv(s, id, c, c.told[i]);
      var j := c.told[i].index.value;
      assert j == k;
    }
  }

  lemma {:induction false} ToldCovers(s: System, id: ClientId, k: nat, b: nat)
    requires Inv(s) && k < |s.log| && id in s.clients && IsTold(s.clients[id], k) && s.log[k].offset <= b < End(s.log[k])
    ensures CoversSome(s.clients[id], b)
  {
    var c := s.clients[id];
    assert ClientInv(s, id, c);
    var i :| 1 <= i < |c.told| && c.told[i].index == Some(k);
    assert TellInv(s, id, c, c.told[i]);
    assert Covers(c.told[i], b);
  }

  /** Told of every append behind its snapshot, and only then, a client has been told of all bytes. */
  lemma {:induction false} WholeIffAllTold(s: System, id: ClientId)
    requires Inv(s) && Contiguous(s) && SnapshotInv(s, id) && id in s.clients && s.clients[id].told != []
    ensures s.doc.Some?
    ensures ToldUpTo(s.clients[id], |s.doc.value|) <==> forall k: nat :: Behind(s, id, k) ==> IsTold(s.clients[id], k)
  {
    var c := s.clients[id];
    if ToldUpTo(c, |s.doc.value|) {
      forall k: nat | Behind(s, id, k) ensures IsTold(c, k) {
        var b := s.log[k].offset;
        assert Slice(s.doc, b, s.log[k].data);
        assert CoversSome(c, b);
        var i :| 0 <= i < |c.told| && Covers(c.told[i], b);
        CoveredIsTold(s, id, k, b, i);
      }
    }
    if forall k: nat :: Behind(s, id, k) ==> IsTold(c, k) {
      forall b: nat | c.told[0].offset <= b < |s.doc.value| ensures CoversSome(c, b) {
        if b < SnapshotEnd(c) {
          assert Covers(c.told[0], b);
        } else {
          var k := WriterOf(s, b, |s.log|);
          ByteBehind(s, id, k, b);
          ToldCovers(s, id, k, b);
        }
      }
    }
  }

  /** The append that wrote a byte behind the snapshot starts behind the snapshot. */
  lemma {:induction false} ByteBehind(s: System, id: ClientId, k: nat, b: nat)
    requires Inv(s) && Contiguous(s) && SnapshotInv(s, id) && id in s.clients && s.clients[id].told != []
    requires k < |s.log| && s.log[k].offset <= b < End(s.log[k]) && SnapshotEnd(s.clients[id]) <= b
    ensures Behind(s, id, k)
  {
  }
}
