/** Any number of calls to the Redis database at once; each command is a step of its own. */
module RedisRuns {
  import opened Base
  import opened Redis
  import Store

  type CallId = nat

  datatype Phase =
    | Begin
    | Watching(version: nat)
    | Queued(version: nat)
    | Done(result: Result, at: nat)

  /**
   A call: its operation, variables and phase; how often an attempt has failed and how many
   commands it has issued; the version of its key and the number of completed effects when
   it was invoked.
   */
  datatype Call = Call(op: Op, vars: Vars, phase: Phase, failures: nat, commands: nat, version0: nat, since: nat)

  /** An operation that has taken effect. */
  datatype Entry = Entry(id: CallId, op: Op, result: Result)

  datatype System = System(
    db: Db, versions: map<RedisKey, nat>, calls: map<CallId, Call>, effects: seq<Entry>, writers: set<CallId>)

  datatype Step = Invoke(id: CallId, op: Op) | Watch(id: CallId) | ReadKey(id: CallId) | Exec(id: CallId)

  function Start(db: Db): System { System(db, map[], map[], [], {}) }

  function Version(s: System, key: RedisKey): nat { if key in s.versions then s.versions[key] else 0 }

  predicate Enabled(s: System, step: Step) {
    match step
    case Invoke(id, _) => id !in s.calls
    case Watch(id) => id in s.calls && s.calls[id].phase.Begin? && !s.calls[id].op.Delete?
    case ReadKey(id) => id in s.calls && s.calls[id].phase.Watching? && !s.calls[id].op.Delete?
    case Exec(id) => id in s.calls && (s.calls[id].phase.Queued? || (s.calls[id].phase.Begin? && s.calls[id].op.Delete?))
  }

  function Put(s: System, id: CallId, c: Call): System { s.(calls := s.calls[id := c.(commands := c.commands + 1)]) }

  function Bump(s: System, keys: set<RedisKey>): map<RedisKey, nat> {
    map k | k in s.versions.Keys + keys :: if k in keys then Version(s, k) + 1 else Version(s, k)
  }

  /** The call takes effect and ends. */
  function Finish(s: System, id: CallId, c: Call, result: Result): System {
    Put(s, id, c.(phase := Done(result, |s.effects|))).(effects := s.effects + [Entry(id, c.op, result)])
  }

  function Apply(s: System, step: Step): System
    requires Enabled(s, step)
  {
    match step
    case Invoke(id, op) =>
      s.(calls := s.calls[id := Call(op, Vars([], false, 0), Begin, 0, 0, Version(s, WatchedKey(op)), |s.effects|)])
    case Watch(id) =>
      var c := s.calls[id];
      Put(s, id, c.(phase := Watching(Version(s, WatchedKey(c.op)))))
    case ReadKey(id) =>
      var c := s.calls[id];
      (match Read(s.db, c.op, c.vars)
       case Return(result) => Finish(s, id, c, result)
       case Proceed(vars) => Put(s, id, c.(vars := vars, phase := Queued(c.phase.version))))
    case Exec(id) =>
      var c := s.calls[id];
      if c.phase.Queued? && Version(s, WatchedKey(c.op)) != c.phase.version then
        Put(s, id, c.(phase := Begin, failures := c.failures + 1))
      else
        Finish(s, id, c, Answer(c.op, c.vars))
          .(db := Commit(s.db, c.op), versions := Bump(s, Touched(s.db, c.op)), writers := s.writers + {id})
  }

  ghost predicate ValidRun(s: System, steps: seq<Step>)
    decreases |steps|
  {
    steps == [] || (Enabled(s, steps[0]) && ValidRun(Apply(s, steps[0]), steps[1..]))
  }

  ghost function Run(s: System, steps: seq<Step>): System
    requires ValidRun(s, steps)
    decreases |steps|
  {
    if steps == [] then s else Run(Apply(s, steps[0]), steps[1..])
  }

  // ----- Atomic execution in the order of the effects -----------------------------------

  function Replay(db: Db, effects: seq<Entry>): Db
    decreases |effects|
  {
    if effects == [] then db
    else Atomic(Replay(db, effects[..|effects| - 1]), effects[|effects| - 1].op).0
  }

  /** Every recorded result is the one an atomic execution in this order gives. */
  ghost predicate Explained(db: Db, effects: seq<Entry>) {
    forall i :: 0 <= i < |effects| ==> effects[i].result == Atomic(Replay(db, effects[..i]), effects[i].op).1
  }

  lemma {:induction false} ReplaySnoc(db: Db, effects: seq<Entry>, e: Entry)
    ensures Replay(db, effects + [e]) == Atomic(Replay(db, effects), e.op).0
    ensures Explained(db, effects) && e.result == Atomic(Replay(db, effects), e.op).1 ==> Explained(db, effects + [e])
  {
    assert (effects + [e])[..|effects|] == effects;
    assert forall i :: 0 <= i < |effects| ==> (effects + [e])[..i] == effects[..i];
  }

  // ----- The invariant ------------------------------------------------------------------

  ghost predicate CallInv(s: System, id: CallId, c: Call) {
    var version := Version(s, WatchedKey(c.op));
    && c.since <= |s.effects|
    && (match c.phase
        case Begin => c.version0 + c.failures <= version && c.commands == 3 * c.failures
        case Watching(v) => c.version0 + c.failures <= v <= version && c.commands == 3 * c.failures + 1
        case Queued(v) =>
          && c.version0 + c.failures <= v <= version && c.commands == 3 * c.failures + 2
          && !c.op.Delete?
          && (v == version ==> Due(s.db, c.op, c.vars))
        case Done(result, at) =>
          && c.version0 + c.failures <= version && c.commands <= 3 * c.failures + 3
          && c.since <= at < |s.effects| && s.effects[at] == Entry(id, c.op, result))
    && (id in s.writers ==> c.phase.Done? && c.failures < |s.writers|)
  }

  ghost predicate Inv(db0: Db, s: System) {
    && Replay(db0, s.effects) == s.db
    && Explained(db0, s.effects)
    && (forall i :: 0 <= i < |s.effects| ==>
          s.effects[i].id in s.calls && s.calls[s.effects[i].id].phase == Done(s.effects[i].result, i))
    && (forall id :: id in s.calls ==> CallInv(s, id, s.calls[id]))
    && s.writers <= s.calls.Keys
    && (forall key :: Version(s, key) <= |s.writers|)
  }

  /** A step that changes one call and neither the database nor the effects. */
  lemma {:induction false} CallStep(db0: Db, s: System, s': System, id: CallId)
    requires Inv(db0, s) && id in s'.calls
    requires s' == s.(calls := s.calls[id := s'.calls[id]])
    requires id in s.calls ==> !s.calls[id].phase.Done?
    requires CallInv(s', id, s'.calls[id])
    ensures Inv(db0, s')
  {
    forall other | other in s'.calls ensures CallInv(s', other, s'.calls[other]) {
      assert other != id ==> CallInv(s, other, s.calls[other]);
    }
    forall i | 0 <= i < |s.effects|
      ensures s.effects[i].id in s'.calls && s'.calls[s.effects[i].id].phase == Done(s.effects[i].result, i)
    {
      assert s.effects[i].id in s.calls && s.calls[s.effects[i].id].phase.Done?;
    }
    assert forall key :: Version(s', key) == Version(s, key);
  }

  lemma {:induction false} FinishKeepsEffects(db0: Db, s: System, id: CallId, result: Result, db': Db)
    requires Inv(db0, s) && id in s.calls && !s.calls[id].phase.Done?
    requires Atomic(s.db, s.calls[id].op) == (db', result)
    ensures var s' := Finish(s, id, s.calls[id], result);
            && Replay(db0, s'.effects) == db'
            && Explained(db0, s'.effects)
            && (forall i :: 0 <= i < |s'.effects| ==>
                  s'.effects[i].id in s'.calls && s'.calls[s'.effects[i].id].phase == Done(s'.effects[i].result, i))
  {
    ReplaySnoc(db0, s.effects, Entry(id, s.calls[id].op, result));
  }

  /** A call that does nothing itself while effects are added and versions rise. */
  lemma {:induction false} CallStays(s: System, s': System, id: CallId)
    requires id in s.calls && id in s'.calls && s'.calls[id] == s.calls[id] && CallInv(s, id, s.calls[id])
    requires s.effects <= s'.effects
    requires s.writers <= s'.writers && |s.writers| <= |s'.writers| && (id in s'.writers ==> id in s.writers)
    requires var key := WatchedKey(s.calls[id].op);
             && Version(s, key) <= Version(s', key)
             && (Version(s, key) == Version(s', key) ==> Look(s.db, key) == Look(s'.db, key))
    ensures CallInv(s', id, s'.calls[id])
  {
    var c := s.calls[id];
    if c.phase.Queued? && c.phase.version == Version(s', WatchedKey(c.op)) {
      DueDependsOnWatchedKey(s.db, s'.db, c.op, c.vars);
    }
  }

  lemma {:induction false} ReturnKeepsCaller(s: System, id: CallId, result: Result)
    requires id in s.calls && CallInv(s, id, s.calls[id]) && s.calls[id].phase.Watching?
    ensures var s' := Finish(s, id, s.calls[id], result); CallInv(s', id, s'.calls[id])
  {
  }

  lemma {:induction false} ReturnKeepsInv(db0: Db, s: System, id: CallId, result: Result)
    requires Inv(db0, s) && id in s.calls && s.calls[id].phase.Watching?
    requires Atomic(s.db, s.calls[id].op) == (s.db, result)
    ensures Inv(db0, Finish(s, id, s.calls[id], result))
  {
    var s' := Finish(s, id, s.calls[id], result);
    assert CallInv(s, id, s.calls[id]);
    FinishKeepsEffects(db0, s, id, result, s.db);
    ReturnKeepsCaller(s, id, result);
    assert forall key :: Version(s', key) == Version(s, key);
    forall other | other in s'.calls ensures CallInv(s', other, s'.calls[other]) {
      if other != id { CallStays(s, s', other); }
    }
  }

  lemma {:induction false} ReadKeepsInv(db0: Db, s: System, id: CallId)
    requires Inv(db0, s) && Enabled(s, ReadKey(id))
    ensures Inv(db0, Apply(s, ReadKey(id)))
  {
    var c := s.calls[id];
    assert CallInv(s, id, c);
    ReadIsAtomic(s.db, c.op, c.vars);
    match Read(s.db, c.op, c.vars)
    case Proceed(vars) => CallStep(db0, s, Apply(s, ReadKey(id)), id);
    case Return(result) => ReturnKeepsInv(db0, s, id, result);
  }

  lemma {:induction false} BumpRaises(s: System, s': System, keys: set<RedisKey>, key: RedisKey)
    requires s'.versions == Bump(s, keys)
    ensures Version(s', key) == Version(s, key) + if key in keys then 1 else 0
  {
  }

  /** The call that takes effect by writing. */
  lemma {:induction false} CommitKeepsCaller(db0: Db, s: System, id: CallId)
    requires Inv(db0, s) && Enabled(s, Exec(id))
    requires s.calls[id].phase.Queued? ==> Version(s, WatchedKey(s.calls[id].op)) == s.calls[id].phase.version
    ensures var s' := Apply(s, Exec(id)); CallInv(s', id, s'.calls[id])
    ensures Atomic(s.db, s.calls[id].op) == (Commit(s.db, s.calls[id].op), Answer(s.calls[id].op, s.calls[id].vars))
  {
    var s' := Apply(s, Exec(id));
    var c := s.calls[id];
    assert CallInv(s, id, c);
    BumpRaises(s, s', Touched(s.db, c.op), WatchedKey(c.op));
    assert id !in s.writers && |s'.writers| == |s.writers| + 1;
  }

  lemma {:induction false} CommitKeepsOther(s: System, id: CallId, other: CallId)
    requires Enabled(s, Exec(id)) && other in s.calls && other != id && CallInv(s, other, s.calls[other])
    requires s.calls[id].phase.Queued? ==> Version(s, WatchedKey(s.calls[id].op)) == s.calls[id].phase.version
    requires |s.writers + {id}| >= |s.writers|
    ensures var s' := Apply(s, Exec(id)); other in s'.calls && CallInv(s', other, s'.calls[other])
  {
    var s' := Apply(s, Exec(id));
    var op := s.calls[id].op;
    var key := WatchedKey(s.calls[other].op);
    BumpRaises(s, s', Touched(s.db, op), key);
    if key !in Touched(s.db, op) { CommitTouches(s.db, op, key); }
    CallStays(s, s', other);
  }

  lemma {:induction false} CommitKeepsVersions(s: System, id: CallId)
    requires Enabled(s, Exec(id)) && id !in s.writers && forall key :: Version(s, key) <= |s.writers|
    requires s.calls[id].phase.Queued? ==> Version(s, WatchedKey(s.calls[id].op)) == s.calls[id].phase.version
    ensures var s' := Apply(s, Exec(id)); forall key :: Version(s', key) <= |s'.writers|
  {
    var s' := Apply(s, Exec(id));
    assert |s'.writers| == |s.writers| + 1;
    forall key ensures Version(s', key) <= |s'.writers| {
      BumpRaises(s, s', Touched(s.db, s.calls[id].op), key);
    }
  }

  lemma {:induction false} CommitKeepsInv(db0: Db, s: System, id: CallId)
    requires Inv(db0, s) && Enabled(s, Exec(id))
    requires s.calls[id].phase.Queued? ==> Version(s, WatchedKey(s.calls[id].op)) == s.calls[id].phase.version
    ensures Inv(db0, Apply(s, Exec(id)))
  {
    var s' := Apply(s, Exec(id));
    var c := s.calls[id];
    assert CallInv(s, id, c);
    CommitKeepsCaller(db0, s, id);
    FinishKeepsEffects(db0, s, id, Answer(c.op, c.vars), Commit(s.db, c.op));
    CommitKeepsVersions(s, id);
    forall other | other in s'.calls ensures CallInv(s', other, s'.calls[other]) {
      if other != id { CommitKeepsOther(s, id, other); }
    }
  }

  lemma {:induction false} StepKeepsInv(db0: Db, s: System, step: Step)
    requires Inv(db0, s) && Enabled(s, step)
    ensures Inv(db0, Apply(s, step))
  {
    var s' := Apply(s, step);
    match step
    case Invoke(id, op) => CallStep(db0, s, s', id);
    case Watch(id) =>
      assert CallInv(s, id, s.calls[id]);
      CallStep(db0, s, s', id);
    case ReadKey(id) => ReadKeepsInv(db0, s, id);
    case Exec(id) =>
      var c := s.calls[id];
      assert CallInv(s, id, c);
      if c.phase.Queued? && Version(s, WatchedKey(c.op)) != c.phase.version {
        CallStep(db0, s, s', id);
      } else {
        CommitKeepsInv(db0, s, id);
      }
  }

  lemma {:induction false} RunKeepsInv(db0: Db, s: System, steps: seq<Step>)
    requires Inv(db0, s) && ValidRun(s, steps)
    ensures Inv(db0, Run(s, steps))
    decreases |steps|
  {
    if steps != [] {
      StepKeepsInv(db0, s, steps[0]);
      RunKeepsInv(db0, Apply(s, steps[0]), steps[1..]);
    }
  }

  // ----- Main results -------------------------------------------------------------------

  /** The finished calls are exactly the effects, each after its call was invoked. */
  ghost predicate Matched(calls: map<CallId, Call>, effects: seq<Entry>) {
    && (forall id :: id in calls && calls[id].phase.Done? ==>
          var c := calls[id];
          c.since <= c.phase.at < |effects| && effects[c.phase.at] == Entry(id, c.op, c.phase.result))
    && (forall i :: 0 <= i < |effects| ==>
          effects[i].id in calls && calls[effects[i].id].phase == Done(effects[i].result, i))
  }

  /**
   Linearizability: however the commands of the calls interleave and however often attempts
   fail, every result that was returned is the one of an atomic execution of the effects, one
   after the other.
   */
  lemma {:induction false} Linearizable(db0: Db, steps: seq<Step>)
    requires ValidRun(Start(db0), steps)
    ensures Explained(db0, Run(Start(db0), steps).effects)
  {
    RunKeepsInv(db0, Start(db0), steps);
  }

  /** And that execution gives the database as it is. */
  lemma {:induction false} EffectsGiveTheDatabase(db0: Db, steps: seq<Step>)
    requires ValidRun(Start(db0), steps)
    ensures Replay(db0, Run(Start(db0), steps).effects) == Run(Start(db0), steps).db
  {
    RunKeepsInv(db0, Start(db0), steps);
  }

  /** A call has taken effect exactly once if it has returned, with that result, and not at all otherwise. */
  lemma {:induction false} EffectsAreTheReturnedCalls(db0: Db, steps: seq<Step>)
    requires ValidRun(Start(db0), steps)
    ensures var s := Run(Start(db0), steps); Matched(s.calls, s.effects)
  {
    RunKeepsInv(db0, Start(db0), steps);
    var s := Run(Start(db0), steps);
    forall id | id in s.calls && s.calls[id].phase.Done?
      ensures var c := s.calls[id];
              c.since <= c.phase.at < |s.effects| && s.effects[c.phase.at] == Entry(id, c.op, c.phase.result)
    {
      assert CallInv(s, id, s.calls[id]);
    }
  }

  /** Between the two states effects have only been added, and calls invoked meanwhile start behind the old ones. */
  ghost predicate Later(s: System, s': System) {
    && |s.effects| <= |s'.effects|
    && (forall id :: id in s.calls ==>
          && id in s'.calls && s'.calls[id].since == s.calls[id].since
          && (s.calls[id].phase.Done? ==> s'.calls[id].phase == s.calls[id].phase))
    && (forall id :: id in s'.calls && id !in s.calls ==> |s.effects| <= s'.calls[id].since)
  }

  lemma {:induction false} StepIsLater(s: System, step: Step)
    requires Enabled(s, step)
    ensures Later(s, Apply(s, step))
  {
  }

  /** What has been done stays done. */
  lemma {:induction false} RunIsLater(s: System, steps: seq<Step>)
    requires ValidRun(s, steps)
    ensures Later(s, Run(s, steps))
    decreases |steps|
  {
    if steps != [] {
      StepIsLater(s, steps[0]);
      RunIsLater(Apply(s, steps[0]), steps[1..]);
    }
  }

  /** Real time is respected: a call that had returned before another was invoked comes first. */
  lemma {:induction false} RealTimeOrder(db0: Db, steps: seq<Step>, more: seq<Step>, first: CallId, second: CallId)
    requires ValidRun(Start(db0), steps) && ValidRun(Run(Start(db0), steps), more)
    requires var s := Run(Start(db0), steps);
             first in s.calls && s.calls[first].phase.Done? && second !in s.calls
    requires var s' := Run(Run(Start(db0), steps), more); second in s'.calls && s'.calls[second].phase.Done?
    ensures var s' := Run(Run(Start(db0), steps), more);
            && first in s'.calls && s'.calls[first].phase.Done?
            && s'.calls[first].phase.at < s'.calls[second].phase.at
  {
    var s := Run(Start(db0), steps);
    RunKeepsInv(db0, Start(db0), steps);
    RunKeepsInv(db0, s, more);
    RunIsLater(s, more);
    var s' := Run(s, more);
    assert CallInv(s, first, s.calls[first]) && CallInv(s', second, s'.calls[second]);
  }

  lemma {:induction false} WritersAreCalls(writers: set<CallId>, calls: map<CallId, Call>, id: CallId)
    requires writers <= calls.Keys && id in calls
    ensures |writers| + (if id in writers then 0 else 1) <= |calls|
  {
    var others := calls.Keys - writers;
    assert calls.Keys == writers + others;
    assert id in writers || others == {id} + (others - {id});
  }

  /** With n calls, nobody's attempts fail more than n - 1 times and nobody issues more than 3n commands. */
  lemma {:induction false} RetriesAreBounded(db0: Db, steps: seq<Step>, id: CallId)
    requires ValidRun(Start(db0), steps) && id in Run(Start(db0), steps).calls
    ensures var s := Run(Start(db0), steps);
            && s.calls[id].failures < |s.calls|
            && s.calls[id].failures <= Version(s, WatchedKey(s.calls[id].op)) - s.calls[id].version0
            && s.calls[id].commands <= 3 * |s.calls|
  {
    RunKeepsInv(db0, Start(db0), steps);
    var s := Run(Start(db0), steps);
    assert CallInv(s, id, s.calls[id]);
    WritersAreCalls(s.writers, s.calls, id);
  }

  // ----- No append is lost --------------------------------------------------------------

  /** The operation leaves what a document holds in place, at most extending it. */
  predicate Preserves(op: Op, doc: Store.DocId) {
    op.doc == doc ==> !op.Delete? && (op.Get? ==> op.mode <= Store.ALWAYS_CREATE)
  }

  lemma {:induction false} DocumentsOnlyGrow(db0: Db, effects: seq<Entry>, i: nat, doc: Store.DocId)
    requires i <= |effects| && doc in Replay(db0, effects[..i]).docs
    requires forall j :: i <= j < |effects| ==> Preserves(effects[j].op, doc)
    ensures doc in Replay(db0, effects).docs
    ensures Replay(db0, effects[..i]).docs[doc] <= Replay(db0, effects).docs[doc]
    decreases |effects|
  {
    if i == |effects| {
      assert effects[..i] == effects;
    } else {
      var shorter := effects[..|effects| - 1];
      assert shorter[..i] == effects[..i];
      DocumentsOnlyGrow(db0, shorter, i, doc);
    }
  }

  lemma {:induction false} AcceptedAppendIsWritten(db: Db, op: Op)
    requires op.Append? && Atomic(db, op).1.append.Appended?
    ensures var db' := Atomic(db, op).0;
            && op.doc in db'.docs && |db'.docs[op.doc]| == op.oldLength + |op.newData|
            && db'.docs[op.doc][op.oldLength..] == op.newData
            && Atomic(db, op).1.append.length == op.oldLength + |op.newData|
  {
  }

  lemma {:induction false} WrittenStays(db0: Db, effects: seq<Entry>, at: nat)
    requires Explained(db0, effects) && at < |effects|
    requires effects[at].op.Append? && effects[at].result.AppendDone? && effects[at].result.append.Appended?
    requires forall j :: at < j < |effects| ==> Preserves(effects[j].op, effects[at].op.doc)
    ensures var op, docs := effects[at].op, Replay(db0, effects).docs;
            && effects[at].result.append.length == op.oldLength + |op.newData|
            && op.doc in docs && op.oldLength + |op.newData| <= |docs[op.doc]|
            && docs[op.doc][op.oldLength..op.oldLength + |op.newData|] == op.newData
  {
    var op, after := effects[at].op, effects[..at + 1];
    assert after[..at] == effects[..at] && after[at].op == op;
    AcceptedAppendIsWritten(Replay(db0, effects[..at]), op);
    DocumentsOnlyGrow(db0, effects, at + 1, op.doc);
    PrefixKeepsTail(Replay(db0, after).docs[op.doc], Replay(db0, effects).docs[op.doc], op.oldLength);
  }

  /**
   No append is lost: what an accepted append wrote is still at its place after any run in
   which nobody deletes the document afterwards.
   */
  lemma {:induction false} NoAppendIsLost(db0: Db, steps: seq<Step>, id: CallId)
    requires ValidRun(Start(db0), steps)
    requires var s := Run(Start(db0), steps);
             && id in s.calls && s.calls[id].phase.Done? && s.calls[id].op.Append?
             && s.calls[id].phase.result.AppendDone? && s.calls[id].phase.result.append.Appended?
             && forall j :: s.calls[id].phase.at < j < |s.effects| ==> Preserves(s.effects[j].op, s.calls[id].op.doc)
    ensures var s := Run(Start(db0), steps);
            var op := s.calls[id].op;
            && s.calls[id].phase.result.append.length == op.oldLength + |op.newData|
            && op.doc in s.db.docs && op.oldLength + |op.newData| <= |s.db.docs[op.doc]|
            && s.db.docs[op.doc][op.oldLength..op.oldLength + |op.newData|] == op.newData
  {
    Linearizable(db0, steps);
    EffectsGiveTheDatabase(db0, steps);
    EffectsAreTheReturnedCalls(db0, steps);
    var s := Run(Start(db0), steps);
    WrittenStays(db0, s.effects, s.calls[id].phase.at);
  }

  lemma {:induction false} PrefixKeepsTail(a: Bytes, b: Bytes, from: nat)
    requires a <= b && from <= |a|
    ensures b[from..|a|] == a[from..]
  {
  }
}
