/** Document keys over the runs of RedisRuns. */
module RedisKeys {
  import opened Base
  import opened Redis
  import opened RedisRuns
  import Store

  /** The key a document starts with, until it is deleted. */
  function Original(db0: Db, effects: seq<Entry>, doc: Store.DocId, name: Store.Name): Option<Store.Key>
    decreases |effects|
  {
    if effects == [] then Current(db0, doc, name)
    else if effects[|effects| - 1].op == Delete(doc) then None
    else Original(db0, effects[..|effects| - 1], doc, name)
  }

  /** The accepted changes of a key since the document was last deleted. */
  function Changes(effects: seq<Entry>, doc: Store.DocId, name: Store.Name): seq<Op>
    decreases |effects|
  {
    if effects == [] then []
    else
      var front, last := effects[..|effects| - 1], effects[|effects| - 1];
      if last.op == Delete(doc) then []
      else if IsChange(last, doc, name) then Changes(front, doc, name) + [last.op]
      else Changes(front, doc, name)
  }

  predicate IsChange(e: Entry, doc: Store.DocId, name: Store.Name) {
    e.op.SetKey? && e.op.doc == doc && e.op.key.name == name && e.result == SetKeyDone(true)
  }

  /** What the key is after these changes. */
  function Latest(original: Option<Store.Key>, changes: seq<Op>): Option<Store.Key>
    requires forall i :: 0 <= i < |changes| ==> changes[i].SetKey?
  {
    if changes == [] then original else Some(changes[|changes| - 1].key)
  }

  /** Every change was made to what the one before it had left. */
  predicate Linked(original: Option<Store.Key>, changes: seq<Op>) {
    && (forall i :: 0 <= i < |changes| ==> changes[i].SetKey?)
    && forall i :: 0 <= i < |changes| ==> changes[i].oldVersion == Store.VersionOf(Latest(original, changes[..i]))
  }

  lemma {:induction false} LinkedSnoc(original: Option<Store.Key>, changes: seq<Op>, op: Op)
    requires Linked(original, changes) && op.SetKey? && op.oldVersion == Store.VersionOf(Latest(original, changes))
    ensures Linked(original, changes + [op])
  {
    var longer := changes + [op];
    assert longer[..|changes|] == changes;
    assert forall i :: 0 <= i < |changes| ==> longer[..i] == changes[..i];
  }

  /** The changes form a chain that ends with the key in the database. */
  ghost predicate Chained(db0: Db, effects: seq<Entry>, doc: Store.DocId, name: Store.Name) {
    var original, changes := Original(db0, effects, doc, name), Changes(effects, doc, name);
    Linked(original, changes) && Current(Replay(db0, effects), doc, name) == Latest(original, changes)
  }

  lemma {:induction false} NoEffectsYet(db0: Db, doc: Store.DocId, name: Store.Name)
    ensures Chained(db0, [], doc, name)
  {
  }

  /** One effect more. */
  lemma {:induction false} EffectKeepsChain(db0: Db, front: seq<Entry>, last: Entry, doc: Store.DocId, name: Store.Name)
    requires Chained(db0, front, doc, name) && last.result == Atomic(Replay(db0, front), last.op).1
    ensures Chained(db0, front + [last], doc, name)
  {
    var effects, db := front + [last], Replay(db0, front);
    assert effects[..|front|] == front && effects[|front|] == last;
    match last.op
    case SetKey(_, _, _) =>
      NamingTheVersionSets(db, last.op);
      if IsChange(last, doc, name) {
        LinkedSnoc(Original(db0, front, doc, name), Changes(front, doc, name), last.op);
      }
    case Delete(_) => DeletingRemoves(db, last.op);
    case _ => DocumentsAreApart(db, last.op);
  }

  lemma {:induction false} EffectsFormChain(db0: Db, effects: seq<Entry>, doc: Store.DocId, name: Store.Name)
    requires Explained(db0, effects)
    ensures Chained(db0, effects, doc, name)
    decreases |effects|
  {
    if effects == [] {
      NoEffectsYet(db0, doc, name);
    } else {
      var n := |effects| - 1;
      ExplainedPrefix(db0, effects, n);
      EffectsFormChain(db0, effects[..n], doc, name);
      assert effects == effects[..n] + [effects[n]];
      EffectKeepsChain(db0, effects[..n], effects[n], doc, name);
    }
  }

  lemma {:induction false} ExplainedPrefix(db0: Db, effects: seq<Entry>, n: nat)
    requires Explained(db0, effects) && n <= |effects|
    ensures Explained(db0, effects[..n])
  {
    assert forall i :: 0 <= i < n ==> effects[..n][..i] == effects[..i];
  }

  /**
   However the calls interleave, the accepted changes of a document key form a chain of versions,
   from what the document started with, or from 0 after a deletion, to the key in the database.
   */
  lemma {:induction false} DocumentKeysFormChains(db0: Db, steps: seq<Step>, doc: Store.DocId, name: Store.Name)
    requires ValidRun(Start(db0), steps)
    ensures var s := Run(Start(db0), steps);
            var original, changes := Original(db0, s.effects, doc, name), Changes(s.effects, doc, name);
            && Linked(original, changes)
            && Current(s.db, doc, name) == Latest(original, changes)
  {
    Linearizable(db0, steps);
    EffectsGiveTheDatabase(db0, steps);
    EffectsFormChain(db0, Run(Start(db0), steps).effects, doc, name);
  }

  /**
   A call that has returned was accepted if and only if it named the version that the accepted
   changes before it had left.
   */
  lemma {:induction false} AcceptedIffCurrent(db0: Db, steps: seq<Step>, id: CallId)
    requires ValidRun(Start(db0), steps)
    requires var s := Run(Start(db0), steps); id in s.calls && s.calls[id].phase.Done? && s.calls[id].op.SetKey?
    ensures var s := Run(Start(db0), steps);
            var op, at := s.calls[id].op, s.calls[id].phase.at;
            && at < |s.effects|
            && var original, changes := Original(db0, s.effects[..at], op.doc, op.key.name),
                                        Changes(s.effects[..at], op.doc, op.key.name);
               && Linked(original, changes)
               && s.calls[id].phase.result ==
                  SetKeyDone(op.oldVersion == Store.VersionOf(Latest(original, changes)))
  {
    Linearizable(db0, steps);
    EffectsAreTheReturnedCalls(db0, steps);
    var s := Run(Start(db0), steps);
    var op, at := s.calls[id].op, s.calls[id].phase.at;
    ExplainedPrefix(db0, s.effects, at);
    EffectsFormChain(db0, s.effects[..at], op.doc, op.key.name);
    NamingTheVersionSets(Replay(db0, s.effects[..at]), op);
  }
}
