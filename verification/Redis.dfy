/** The Redis database: optimistic transactions. */
module Redis {
  import opened Base
  import Store

  datatype RedisKey = DocKey(doc: Store.DocId) | KeysKey(doc: Store.DocId)

  datatype Op =
    | Get(doc: Store.DocId, mode: nat, initial: Bytes)
    | Append(doc: Store.DocId, oldLength: nat, newData: Bytes)
    | SetKey(doc: Store.DocId, oldVersion: int, key: Store.Key)
    | Delete(doc: Store.DocId)

  datatype Result =
    | GetDone(get: Store.GetResult)
    | AppendDone(append: Store.AppendResult)
    | SetKeyDone(ok: bool)
    | DeleteDone

  /** What the server holds; a hash with no fields is the same as no hash. */
  datatype Db = Db(docs: map<Store.DocId, Bytes>, keys: map<Store.DocId, map<Store.Name, Store.Key>>)

  function KeysOf(db: Db, doc: Store.DocId): map<Store.Name, Store.Key> {
    if doc in db.keys then db.keys[doc] else map[]
  }

  // ----- What one call does when nothing interferes -------------------------------------

  /** A mode the code does not know skips the switch: an existing document is overwritten. */
  function GetOnce(doc: Option<Bytes>, mode: nat, initial: Bytes): (Option<Bytes>, Store.GetResult) {
    if doc.Some? && (mode == Store.POSSIBLY_CREATE || mode == Store.NEVER_CREATE) then
      (doc, Store.Got(doc.value, false))
    else if doc.Some? && mode == Store.ALWAYS_CREATE then (doc, Store.GetFailed(Store.ErrExists))
    else if mode == Store.NEVER_CREATE then (doc, Store.GetFailed(Store.ErrMissing))
    else (Some(initial), Store.Got(initial, true))
  }

  /** A missing document has length 0. */
  function AppendOnce(doc: Option<Bytes>, oldLength: nat, newData: Bytes): (Option<Bytes>, Store.AppendResult) {
    var contents := if doc.Some? then doc.value else [];
    if |contents| != oldLength then (doc, Store.AppendFailed(Store.ErrConflict, |contents|))
    else (Some(contents + newData), Store.Appended(oldLength + |newData|))
  }

  function Atomic(db: Db, op: Op): (Db, Result) {
    match op
    case Get(d, mode, initial) =>
      var (doc', r) := GetOnce(Store.Lookup(db.docs, d), mode, initial);
      (db.(docs := Store.Put(db.docs, d, doc')), GetDone(r))
    case Append(d, oldLength, newData) =>
      var (doc', r) := AppendOnce(Store.Lookup(db.docs, d), oldLength, newData);
      (db.(docs := Store.Put(db.docs, d, doc')), AppendDone(r))
    case SetKey(d, oldVersion, key) =>
      var (keys', ok) := Store.SetKey(KeysOf(db, d), oldVersion, key);
      (if ok then db.(keys := db.keys[d := keys']) else db, SetKeyDone(ok))
    case Delete(d) => (Db(db.docs - {d}, db.keys - {d}), DeleteDone)
  }

  /** Reading the document meets the contract exactly for the three modes there are, or if it is missing. */
  lemma {:induction false} GetMeetsContractIff(doc: Option<Bytes>, mode: nat, initial: Bytes)
    ensures GetOnce(doc, mode, initial) == Store.GetDocument(doc, mode, initial) <==>
            mode <= Store.ALWAYS_CREATE || doc.None?
  {
  }

  /** Appending meets the contract exactly when the document exists. */
  lemma {:induction false} AppendMeetsContractIff(doc: Option<Bytes>, oldLength: nat, newData: Bytes)
    ensures AppendOnce(doc, oldLength, newData) == Store.AppendDocument(doc, oldLength, newData) <==> doc.Some?
  {
  }

  /** And otherwise: an unknown mode overwrites the document, and a missing document is appended to as an empty one. */
  lemma {:induction false} OutsideContract(doc: Option<Bytes>, mode: nat, initial: Bytes, oldLength: nat, newData: Bytes)
    ensures mode > 2 ==> GetOnce(doc, mode, initial) == (Some(initial), Store.Got(initial, true))
    ensures AppendOnce(None, oldLength, newData) ==
            if oldLength == 0 then (Some(newData), Store.Appended(|newData|))
            else (None, Store.AppendFailed(Store.ErrConflict, 0))
  {
    assert [] + newData == newData;
  }

  /** A document key as the calls find it. */
  function Current(db: Db, doc: Store.DocId, name: Store.Name): Option<Store.Key> {
    if doc in db.keys && name in db.keys[doc] then Some(db.keys[doc][name]) else None
  }

  /**
   Setting a key succeeds if and only if the version it names is that of the key, or 0 for a key
   that does not exist; then that key of that document is the new one, and nothing else changes.
   */
  lemma {:induction false} NamingTheVersionSets(db: Db, op: Op)
    requires op.SetKey?
    ensures var (after, result) := Atomic(db, op); var current := Current(db, op.doc, op.key.name);
            && after.docs == db.docs
            && (result == SetKeyDone(true) <==> op.oldVersion == if current.Some? then current.value.version else 0)
            && (result != SetKeyDone(true) ==> result == SetKeyDone(false) && after == db)
            && (forall d, n :: Current(after, d, n) ==
                  if result == SetKeyDone(true) && d == op.doc && n == op.key.name then Some(op.key) else Current(db, d, n))
  {
  }

  /** Deleting removes the document and its keys, and leaves all others as they are. */
  lemma {:induction false} DeletingRemoves(db: Db, op: Op)
    requires op.Delete?
    ensures var (after, result) := Atomic(db, op);
            && result == DeleteDone && after == Commit(db, op)
            && (forall d :: Store.Lookup(after.docs, d) == if d == op.doc then None else Store.Lookup(db.docs, d))
            && (forall d, n :: Current(after, d, n) == if d == op.doc then None else Current(db, d, n))
  {
  }

  /** Reading or appending leaves all keys and all other documents as they are. */
  lemma {:induction false} DocumentsAreApart(db: Db, op: Op)
    requires op.Get? || op.Append?
    ensures var after := Atomic(db, op).0;
            && after.keys == db.keys
            && forall d :: d != op.doc ==> Store.Lookup(after.docs, d) == Store.Lookup(db.docs, d)
  {
  }

  // ----- The commands of a call ---------------------------------------------------------

  // A call watches a key, reads it, and either returns or queues a write that Redis executes only
  // if the watched key has not been touched since; otherwise the call starts again, with whatever
  // its variables then hold.

  /** The variables a call keeps across its attempts. */
  datatype Vars = Vars(doc: Bytes, created: bool, actualLength: nat)

  datatype ReadOutcome = Return(result: Result) | Proceed(vars: Vars)

  /** What the watch function does with the value it reads. */
  function Read(db: Db, op: Op, vars: Vars): ReadOutcome
    requires !op.Delete?
  {
    match op
    case Get(d, mode, initial) =>
      if d in db.docs then
        var found := vars.(doc := db.docs[d]);
        if mode == Store.POSSIBLY_CREATE || mode == Store.NEVER_CREATE then
          var kept := found.(created := false);
          Return(GetDone(Store.Got(kept.doc, kept.created)))
        else if mode == Store.ALWAYS_CREATE then Return(GetDone(Store.GetFailed(Store.ErrExists)))
        else Proceed(found.(doc := initial, created := true))
      else if mode == Store.NEVER_CREATE then Return(GetDone(Store.GetFailed(Store.ErrMissing)))
      else Proceed(vars.(doc := initial, created := true))
    case Append(d, oldLength, newData) =>
      var length := if d in db.docs then |db.docs[d]| else 0;
      if length != oldLength then Return(AppendDone(Store.AppendFailed(Store.ErrConflict, length)))
      else Proceed(vars.(actualLength := oldLength + |newData|))
    case SetKey(d, oldVersion, key) =>
      var keys := KeysOf(db, d);
      if key.name in keys then
        if keys[key.name].version != oldVersion then Return(SetKeyDone(false)) else Proceed(vars)
      else if oldVersion != 0 then Return(SetKeyDone(false))
      else Proceed(vars)
  }

  /** The queued commands. */
  function Commit(db: Db, op: Op): Db {
    match op
    case Get(d, _, initial) => db.(docs := db.docs[d := initial])
    case Append(d, _, newData) =>
      db.(docs := db.docs[d := (if d in db.docs then db.docs[d] else []) + newData])
    case SetKey(d, _, key) => db.(keys := db.keys[d := KeysOf(db, d)[key.name := key]])
    case Delete(d) => Db(db.docs - {d}, db.keys - {d})
  }

  /** What the call returns once its write has been executed. */
  function Answer(op: Op, vars: Vars): Result {
    match op
    case Get(_, _, _) => GetDone(Store.Got(vars.doc, vars.created))
    case Append(_, _, _) => AppendDone(Store.Appended(vars.actualLength))
    case SetKey(_, _, _) => SetKeyDone(true)
    case Delete(_) => DeleteDone
  }

  function WatchedKey(op: Op): RedisKey {
    if op.SetKey? then KeysKey(op.doc) else DocKey(op.doc)
  }

  /** The keys whose watchers the execution of the queued commands disturbs. */
  function Touched(db: Db, op: Op): set<RedisKey> {
    if op.Delete? then
      (if op.doc in db.docs then {DocKey(op.doc)} else {}) + (if op.doc in db.keys then {KeysKey(op.doc)} else {})
    else {WatchedKey(op)}
  }

  // ----- What watching protects ---------------------------------------------------------

  /** What watching a key protects. */
  datatype View = DocView(doc: Option<Bytes>) | KeysView(keys: map<Store.Name, Store.Key>)

  function Look(db: Db, key: RedisKey): View {
    match key
    case DocKey(d) => DocView(Store.Lookup(db.docs, d))
    case KeysKey(d) => KeysView(KeysOf(db, d))
  }

  /** Executing the queued commands now is the atomic operation, and the call's variables hold its result. */
  ghost predicate Due(db: Db, op: Op, vars: Vars) {
    Atomic(db, op) == (Commit(db, op), Answer(op, vars))
  }

  /** A call that returns without writing has read the state in which it would do nothing. */
  lemma {:induction false} ReadIsAtomic(db: Db, op: Op, vars: Vars)
    requires !op.Delete?
    ensures match Read(db, op, vars)
            case Return(result) => Atomic(db, op) == (db, result)
            case Proceed(vars') => Due(db, op, vars')
  {
    assert op.doc in db.docs ==> db.docs[op.doc := db.docs[op.doc]] == db.docs;
    assert op.doc !in db.docs ==> db.docs - {op.doc} == db.docs;
  }

  /** Being due depends on the watched key alone. */
  lemma {:induction false} DueDependsOnWatchedKey(db: Db, db': Db, op: Op, vars: Vars)
    requires !op.Delete? && Due(db, op, vars) && Look(db, WatchedKey(op)) == Look(db', WatchedKey(op))
    ensures Due(db', op, vars)
  {
    if op.Get? || op.Append? {
      assert Store.Put(db.docs, op.doc, Store.Lookup(Commit(db, op).docs, op.doc)) == Commit(db, op).docs;
      var contents := Commit(db, op).docs[op.doc];
      assert Atomic(db, op).0.docs[op.doc] == contents;
    }
  }

  lemma {:induction false} CommitTouches(db: Db, op: Op, key: RedisKey)
    requires key !in Touched(db, op)
    ensures Look(Commit(db, op), key) == Look(db, key)
  {
  }
}
