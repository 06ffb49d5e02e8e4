/**
 Who may do what: the permissions a connection is given, and what connections without the right
 to write can do to the documents over a whole run.
 */
module Access {
  import opened Base
  import opened Store
  import Protocol
  import Redis

  /** What the lookup of the document id as a token, stored or signed, has given. */
  datatype Grant =
    | Granted(docId: DocId, userId: string, permissions: string)
    | NoToken
    | Expired
    | BadSignature
    | LookupFailed

  /** A refusal, or the rights of the connection and the creation mode it is left with. */
  datatype Verdict =
    | Denied(code: nat)
    | Allowed(docId: DocId, userId: string, canWrite: bool, isAdmin: bool, mode: nat, codeOnMissing: nat)

  const ERROR_UNSPECIFIED: nat := 0

  function Authorize(grant: Grant, hasJwtKey: bool, claimed: DocId, mode: nat): Verdict {
    match grant
    case Granted(docId, userId, permissions) =>
      var canWrite, isAdmin := 'w' in permissions, 'a' in permissions;
      if 'r' !in permissions || (mode == ALWAYS_CREATE && !canWrite) then Denied(Protocol.ERROR_ACCESS_DENIED)
      else if !canWrite && mode == POSSIBLY_CREATE then
        Allowed(docId, userId, canWrite, isAdmin, NEVER_CREATE, Protocol.ERROR_ACCESS_DENIED)
      else Allowed(docId, userId, canWrite, isAdmin, mode, Protocol.ERROR_DOES_NOT_EXIST)
    case NoToken =>
      if hasJwtKey then Denied(Protocol.ERROR_ACCESS_DENIED)
      else Allowed(claimed, "", true, false, mode, Protocol.ERROR_DOES_NOT_EXIST)
    case LookupFailed => Denied(ERROR_UNSPECIFIED)
    case _ => Denied(if hasJwtKey then Protocol.ERROR_ACCESS_DENIED else ERROR_UNSPECIFIED)
  }

  /** Who is admitted: a token that may be read, and written to for a new document, or anybody where tokens are not required. */
  predicate Admits(grant: Grant, hasJwtKey: bool, mode: nat) {
    match grant
    case Granted(_, _, permissions) => 'r' in permissions && (mode == 2 ==> 'w' in permissions)
    case NoToken => !hasJwtKey
    case _ => false
  }

  /**
   Exactly those are admitted, to the document and with the rights that the token names, or without
   one to the document named and with the right to write.  A reader cannot have a document created
   by a known mode, and is told that access is denied (4) if it is missing.  All others are refused:
   with access denied, unless the lookup failed or there is no key to have checked a signature with.
   */
  lemma {:induction false} AdmittedIff(grant: Grant, hasJwtKey: bool, claimed: DocId, mode: nat)
    ensures var v := Authorize(grant, hasJwtKey, claimed, mode);
            && (v.Allowed? <==> Admits(grant, hasJwtKey, mode))
            && (v.Allowed? && grant.Granted? ==>
                  && v.docId == grant.docId && v.userId == grant.userId
                  && v.canWrite == ('w' in grant.permissions) && v.isAdmin == ('a' in grant.permissions))
            && (v.Allowed? && grant.NoToken? ==> v.docId == claimed && v.userId == "" && v.canWrite && !v.isAdmin)
            && (v.Allowed? ==>
                  && v.mode == (if mode == 0 && !v.canWrite then 1 else mode)
                  && v.codeOnMissing == if mode == 0 && !v.canWrite then 4 else 1)
            && (v.Denied? ==> v.code == if grant.Granted? || (hasJwtKey && !grant.LookupFailed?) then 4 else 0)
  {
  }

  // ----- Runs ---------------------------------------------------------------------------

  datatype Party = Party(docId: DocId, userId: string, canWrite: bool)

  /** The databases that keep to the contract, in memory and SQL, and the one that does not. */
  datatype Backend = ContractBackend | RedisBackend

  datatype World = World(backend: Backend, docs: Docs, parties: map<ClientId, Party>)

  /** The effect of a call to the database, which for Redis is the one its calls have atomically. */
  function Get(b: Backend, doc: Option<Bytes>, mode: nat, initial: Bytes): (Option<Bytes>, GetResult) {
    if b.RedisBackend? then Redis.GetOnce(doc, mode, initial) else GetDocument(doc, mode, initial)
  }

  function Add(b: Backend, doc: Option<Bytes>, oldLength: nat, newData: Bytes): Option<Bytes> {
    if b.RedisBackend? then Redis.AppendOnce(doc, oldLength, newData).0 else AppendDocument(doc, oldLength, newData).0
  }

  datatype Step =
    | Init(id: ClientId, grant: Grant, hasJwtKey: bool, claimed: DocId, mode: nat, initial: Bytes, offset: nat)
    | Append(id: ClientId, offset: nat, data: Bytes)
    | Permissions(userId: string, permissions: string)
    | Delete(docId: DocId)
    | Leave(id: ClientId)

  predicate Enabled(w: World, step: Step) {
    match step
    case Init(id, _, _, _, _, _, _) => id !in w.parties
    case Append(id, _, _) => id in w.parties
    case Leave(id) => id in w.parties
    case _ => true
  }

  function ApplyInit(w: World, step: Step): World
    requires step.Init?
  {
    match Authorize(step.grant, step.hasJwtKey, step.claimed, step.mode)
    case Denied(_) => w
    case Allowed(docId, userId, canWrite, _, mode, code) =>
      var (doc, result) := Get(w.backend, Lookup(w.docs, docId), mode, step.initial);
      var docs := Put(w.docs, docId, doc);
      if Protocol.InitAnswer(result, step.offset, code).Welcome?
      then w.(docs := docs, parties := w.parties[step.id := Party(docId, userId, canWrite)])
      else w.(docs := docs)
  }

  function Apply(w: World, step: Step): World
    requires Enabled(w, step)
  {
    match step
    case Init(_, _, _, _, _, _, _) => ApplyInit(w, step)
    case Append(id, offset, data) =>
      var p := w.parties[id];
      w.(docs := Put(w.docs, p.docId, Add(w.backend, Lookup(w.docs, p.docId), offset, if p.canWrite then data else [])))
    case Permissions(userId, permissions) =>
      w.(parties := map id | id in w.parties ::
           if w.parties[id].userId == userId then w.parties[id].(canWrite := 'w' in permissions) else w.parties[id])
    case Delete(docId) => w.(docs := w.docs - {docId})
    case Leave(id) => w.(parties := w.parties - {id})
  }

  ghost predicate ValidRun(w: World, steps: seq<Step>)
    decreases |steps|
  {
    steps == [] || (Enabled(w, steps[0]) && ValidRun(Apply(w, steps[0]), steps[1..]))
  }

  ghost function Run(w: World, steps: seq<Step>): World
    requires ValidRun(w, steps)
    decreases |steps|
  {
    if steps == [] then w else Run(Apply(w, steps[0]), steps[1..])
  }

  // ----- Who takes part -----------------------------------------------------------------

  /** The step by which a party came in. */
  predicate Entered(step: Step, id: ClientId, p: Party) {
    && step.Init? && step.id == id && Admits(step.grant, step.hasJwtKey, step.mode)
    && if step.grant.Granted? then p.docId == step.grant.docId && p.userId == step.grant.userId
       else p.docId == step.claimed && p.userId == ""
  }

  /** Whether a party may write, by what it came in with and the last change of its user's permissions since. */
  function MayWrite(steps: seq<Step>, i: nat, p: Party): bool
    requires i < |steps| && steps[i].Init?
    decreases |steps|
  {
    var last := steps[|steps| - 1];
    if i == |steps| - 1 then last.grant.Granted? ==> 'w' in last.grant.permissions
    else if last.Permissions? && last.userId == p.userId then 'w' in last.permissions
    else MayWrite(steps[..|steps| - 1], i, p)
  }

  ghost predicate Explains(steps: seq<Step>, i: nat, id: ClientId, p: Party) {
    i < |steps| && Entered(steps[i], id, p) && p.canWrite == MayWrite(steps, i, p)
  }

  lemma {:induction false} RunSnoc(w: World, steps: seq<Step>)
    requires steps != [] && ValidRun(w, steps)
    ensures var front := steps[..|steps| - 1];
            ValidRun(w, front) && Enabled(Run(w, front), steps[|front|]) && Run(w, steps) == Apply(Run(w, front), steps[|front|])
    decreases |steps|
  {
    if |steps| > 1 {
      RunSnoc(Apply(w, steps[0]), steps[1..]);
      assert steps[..|steps| - 1][1..] == steps[1..][..|steps| - 2];
    } else {
      assert steps[..0] == [] && steps[1..] == [];
    }
  }

  /** A party that was there before a step is the same, but perhaps for the right to write. */
  lemma {:induction false} StepKeepsParties(w: World, step: Step, id: ClientId)
    requires Enabled(w, step) && id in Apply(w, step).parties && id in w.parties
    ensures var p, p' := w.parties[id], Apply(w, step).parties[id];
            p' == if step.Permissions? && step.userId == p.userId then p.(canWrite := 'w' in step.permissions) else p
  {
  }

  lemma {:induction false} NewPartyIsAdmitted(w: World, step: Step, id: ClientId)
    requires Enabled(w, step) && id in Apply(w, step).parties && id !in w.parties
    ensures var p := Apply(w, step).parties[id];
            Entered(step, id, p) && p.canWrite == (step.grant.Granted? ==> 'w' in step.grant.permissions)
  {
    AdmittedIff(step.grant, step.hasJwtKey, step.claimed, step.mode);
  }

  /**
   In every run, whoever is connected was admitted by a token with the right to read, or without one
   where none is required, to the document it names; and may write if and only if the last word on
   its permissions says so.
   */
  lemma {:induction false} PartiesWereAdmitted(w: World, steps: seq<Step>, id: ClientId)
    requires w.parties == map[] && ValidRun(w, steps) && id in Run(w, steps).parties
    ensures exists i :: Explains(steps, i, id, Run(w, steps).parties[id])
    decreases |steps|
  {
    if steps != [] {
      var front, last := steps[..|steps| - 1], steps[|steps| - 1];
      RunSnoc(w, steps);
      var p := Run(w, steps).parties[id];
      if id in Run(w, front).parties {
        PartiesWereAdmitted(w, front, id);
        StepKeepsParties(Run(w, front), last, id);
        var i :| Explains(front, i, id, Run(w, front).parties[id]);
        assert Explains(steps, i, id, p);
      } else {
        NewPartyIsAdmitted(Run(w, front), last, id);
        assert Explains(steps, |front|, id, p);
      }
    }
  }

  // ----- The calls of those who may write -----------------------------------------------

  datatype Call =
    | GetCall(docId: DocId, mode: nat, initial: Bytes)
    | AddCall(docId: DocId, oldLength: nat, data: Bytes)
    | DeleteCall(docId: DocId)

  function Perform(b: Backend, docs: Docs, call: Call): Docs {
    match call
    case GetCall(docId, mode, initial) => Put(docs, docId, Get(b, Lookup(docs, docId), mode, initial).0)
    case AddCall(docId, oldLength, data) => Put(docs, docId, Add(b, Lookup(docs, docId), oldLength, data))
    case DeleteCall(docId) => docs - {docId}
  }

  function Replay(b: Backend, docs: Docs, calls: seq<Call>): Docs
    decreases |calls|
  {
    if calls == [] then docs else Replay(b, Perform(b, docs, calls[0]), calls[1..])
  }

  /** The call to the database a step makes, if it is made with the right to write. */
  function WriterCall(w: World, step: Step): seq<Call>
    requires Enabled(w, step)
  {
    match step
    case Init(_, grant, hasJwtKey, claimed, mode, initial, _) =>
      var v := Authorize(grant, hasJwtKey, claimed, mode);
      if v.Allowed? && v.canWrite then [GetCall(v.docId, v.mode, initial)] else []
    case Append(id, offset, data) =>
      if w.parties[id].canWrite then [AddCall(w.parties[id].docId, offset, data)] else []
    case Delete(docId) => [DeleteCall(docId)]
    case _ => []
  }

  ghost function WriterCalls(w: World, steps: seq<Step>): seq<Call>
    requires ValidRun(w, steps)
    decreases |steps|
  {
    if steps == [] then [] else WriterCall(w, steps[0]) + WriterCalls(Apply(w, steps[0]), steps[1..])
  }

  /**
   Exactly when a connection that may not write changes the documents by its init message: its
   creation mode is none of the three known ones, and the document does not exist or, on Redis,
   has other contents than those sent along.
   */
  lemma {:induction false} ReaderCreatesIff(w: World, step: Step)
    requires step.Init? && Enabled(w, step)
    requires var v := Authorize(step.grant, step.hasJwtKey, step.claimed, step.mode); v.Allowed? && !v.canWrite
    ensures var v := Authorize(step.grant, step.hasJwtKey, step.claimed, step.mode);
            Apply(w, step).docs != w.docs <==>
              && step.mode > ALWAYS_CREATE
              && if w.backend.RedisBackend? then Lookup(w.docs, v.docId) != Some(step.initial) else v.docId !in w.docs
  {
    var v := Authorize(step.grant, step.hasJwtKey, step.claimed, step.mode);
    PutSame(w.docs, v.docId);
    PutLookup(w.docs, v.docId, Get(w.backend, Lookup(w.docs, v.docId), v.mode, step.initial).0);
  }

  /**
   And by an append: never on the databases that keep to the contract; on Redis by one at offset 0
   of a document that does not exist.
   */
  lemma {:induction false} ReaderAppendsIff(w: World, step: Step)
    requires step.Append? && Enabled(w, step) && !w.parties[step.id].canWrite
    ensures Apply(w, step).docs != w.docs <==>
            w.backend.RedisBackend? && step.offset == 0 && w.parties[step.id].docId !in w.docs
  {
    var docId := w.parties[step.id].docId;
    PutSame(w.docs, docId);
    PutLookup(w.docs, docId, Add(w.backend, Lookup(w.docs, docId), step.offset, []));
    if docId in w.docs {
      assert w.docs[docId] + [] == w.docs[docId];
    }
  }

  lemma {:induction false} PutLookup(docs: Docs, docId: DocId, doc: Option<Bytes>)
    ensures Lookup(Put(docs, docId, doc), docId) == doc
  {
  }

  /** The steps of connections without the right to write that the two statements above allow. */
  predicate Guarded(w: World, step: Step)
    requires Enabled(w, step)
  {
    match step
    case Init(_, _, _, _, mode, _, _) => mode <= ALWAYS_CREATE
    case Append(id, offset, _) =>
      var p := w.parties[id];
      w.backend.RedisBackend? && offset == 0 ==> p.canWrite || p.docId in w.docs
    case _ => true
  }

  ghost predicate GuardedRun(w: World, steps: seq<Step>)
    requires ValidRun(w, steps)
    decreases |steps|
  {
    steps == [] || (Guarded(w, steps[0]) && GuardedRun(Apply(w, steps[0]), steps[1..]))
  }

  lemma {:induction false} StepIsWriterCall(w: World, step: Step)
    requires Enabled(w, step) && Guarded(w, step)
    ensures Apply(w, step).docs == Replay(w.backend, w.docs, WriterCall(w, step)) && Apply(w, step).backend == w.backend
  {
    match step {
      case Init(_, grant, hasJwtKey, claimed, mode, initial, _) =>
        var v := Authorize(grant, hasJwtKey, claimed, mode);
        if v.Allowed? && !v.canWrite {
          ReaderCreatesIff(w, step);
        }
      case Append(id, offset, data) =>
        if !w.parties[id].canWrite {
          ReaderAppendsIff(w, step);
        }
      case _ =>
    }
  }

  lemma {:induction false} ReplayAppend(b: Backend, docs: Docs, first: seq<Call>, second: seq<Call>)
    ensures Replay(b, docs, first + second) == Replay(b, Replay(b, docs, first), second)
    decreases |first|
  {
    if first == [] {
      assert first + second == second;
    } else {
      assert (first + second)[1..] == first[1..] + second;
      ReplayAppend(b, Perform(b, docs, first[0]), first[1..], second);
    }
  }

  /**
   Whatever connections without the right to write send, and however rights are given and taken
   meanwhile, the documents are what the calls of the others alone make of them.  On Redis their
   documents must exist when they append at offset 0.
   */
  lemma {:induction false} ReadersChangeNothing(w: World, steps: seq<Step>)
    requires ValidRun(w, steps) && GuardedRun(w, steps)
    ensures Run(w, steps).docs == Replay(w.backend, w.docs, WriterCalls(w, steps))
    decreases |steps|
  {
    if steps != [] {
      StepIsWriterCall(w, steps[0]);
      ReadersChangeNothing(Apply(w, steps[0]), steps[1..]);
      ReplayAppend(w.backend, w.docs, WriterCall(w, steps[0]), WriterCalls(Apply(w, steps[0]), steps[1..]));
    }
  }

  /**
   For the databases that keep to the contract, known creation modes are all it takes.
   */
  lemma {:induction false} KnownModesSuffice(w: World, steps: seq<Step>)
    requires ValidRun(w, steps) && w.backend.ContractBackend?
    requires forall step :: step in steps ==> step.Init? ==> step.mode <= ALWAYS_CREATE
    ensures GuardedRun(w, steps)
    decreases |steps|
  {
    if steps != [] {
      assert steps[0] in steps;
      assert forall step :: step in steps[1..] ==> step in steps;
      KnownModesSuffice(Apply(w, steps[0]), steps[1..]);
    }
  }
}
