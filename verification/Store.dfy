/** The document database contract (socket.go:50-64). */
module Store {
  import opened Base

  type DocId = string

  datatype Error = ErrMissing | ErrExists | ErrConflict

  /** A named, versioned value attached to a document or to a session. */
  datatype Key = Key(version: int, name: Name, value: Bytes)

  type Name = Bytes

  const POSSIBLY_CREATE: nat := 0
  const NEVER_CREATE: nat := 1
  const ALWAYS_CREATE: nat := 2

  datatype GetResult = Got(doc: Bytes, created: bool) | GetFailed(error: Error)

  datatype AppendResult = Appended(length: nat) | AppendFailed(error: Error, length: nat)

  // The calls are functions from the state they find to the state they leave and the result they
  // return.  Every database of the server is compared with them.

  /** The contents a document has after a creating or retrieving call, and what the call returns. */
  function GetDocument(doc: Option<Bytes>, mode: nat, initial: Bytes): (Option<Bytes>, GetResult) {
    if doc.None? && mode == NEVER_CREATE then (doc, GetFailed(ErrMissing))
    else if doc.Some? && mode == ALWAYS_CREATE then (doc, GetFailed(ErrExists))
    else if doc.None? then (Some(initial), Got(initial, true))
    else (doc, Got(doc.value, false))
  }

  function AppendDocument(doc: Option<Bytes>, oldLength: nat, newData: Bytes): (Option<Bytes>, AppendResult) {
    if doc.None? then (doc, AppendFailed(ErrMissing, 0))
    else if |doc.value| != oldLength then (doc, AppendFailed(ErrConflict, |doc.value|))
    else (Some(doc.value + newData), Appended(|doc.value| + |newData|))
  }

  /** Compare-and-set of a document key: the second component says whether the key was stored. */
  function SetKey(keys: map<Name, Key>, oldVersion: int, key: Key): (map<Name, Key>, bool) {
    if (if key.name in keys then keys[key.name].version == oldVersion else oldVersion == 0)
    then (keys[key.name := key], true)
    else (keys, false)
  }

  /** The version to name in a call, which is 0 for a key that does not exist. */
  function VersionOf(key: Option<Key>): int { if key.Some? then key.value.version else 0 }

  function KeyNamed(keys: map<Name, Key>, name: Name): Option<Key> { if name in keys then Some(keys[name]) else None }

  /** Naming the right version is all it takes; then the name has the new key, and otherwise nothing changes. */
  lemma {:induction false} NamingTheVersionSets(keys: map<Name, Key>, oldVersion: int, key: Key)
    ensures var (after, ok) := SetKey(keys, oldVersion, key);
            && ok == (oldVersion == VersionOf(KeyNamed(keys, key.name)))
            && (forall n :: KeyNamed(after, n) == if ok && n == key.name then Some(key) else KeyNamed(keys, n))
            && (!ok ==> after == keys)
  {
  }

  function Lookup<T>(m: map<DocId, T>, id: DocId): Option<T> {
    if id in m then Some(m[id]) else None
  }

  function Put<T>(m: map<DocId, T>, id: DocId, v: Option<T>): map<DocId, T> {
    if v.Some? then m[id := v.value] else m - {id}
  }

  lemma {:induction false} PutSame<T>(m: map<DocId, T>, id: DocId)
    ensures Put(m, id, Lookup(m, id)) == m
  {
    assert id in m ==> m[id := m[id]] == m;
    assert id !in m ==> m - {id} == m;
  }

  type Docs = map<DocId, Bytes>

  /** A call that found the documents `was` and left `now` returned what the contract says, and did what it says. */
  predicate GetMeets(was: Docs, now: Docs, docId: DocId, mode: nat, initial: Bytes,
                     doc: Option<Bytes>, created: bool, error: Option<Error>) {
    var (after, result) := GetDocument(Lookup(was, docId), mode, initial);
    && now == Put(was, docId, after)
    && match result
       case GetFailed(e) => error == Some(e) && doc.None?
       case Got(bytes, isNew) => error.None? && doc == Some(bytes) && created == isNew
  }

  /** A missing document is created, any other returned as it is; unless the mode forbids it. */
  lemma {:induction false} OpeningMeets(was: Docs, docId: DocId, mode: nat, initial: Bytes)
    ensures var found, now := docId in was, if docId in was then was else was[docId := initial];
            if !found && mode == NEVER_CREATE then GetMeets(was, was, docId, mode, initial, None, false, Some(ErrMissing))
            else if found && mode == ALWAYS_CREATE then GetMeets(was, was, docId, mode, initial, None, false, Some(ErrExists))
            else GetMeets(was, now, docId, mode, initial, Some(now[docId]), !found, None)
  {
    PutSame(was, docId);
  }

  predicate AppendMeets(was: Docs, now: Docs, docId: DocId, oldLength: nat, newData: Bytes,
                        length: nat, error: Option<Error>) {
    var (after, result) := AppendDocument(Lookup(was, docId), oldLength, newData);
    && now == Put(was, docId, after)
    && result == if error.None? then Appended(length) else AppendFailed(error.value, length)
  }

  // ----- Contention ---------------------------------------------------------------------

  datatype AppendCall = AppendCall(oldLength: nat, newData: Bytes)

  /** The results of a list of append calls made one after the other. */
  function AppendAll(doc: Option<Bytes>, calls: seq<AppendCall>): (r: (Option<Bytes>, seq<AppendResult>))
    ensures |r.1| == |calls|
    decreases |calls|
  {
    if calls == [] then (doc, [])
    else
      var (doc', result) := AppendDocument(doc, calls[0].oldLength, calls[0].newData);
      var (doc'', results) := AppendAll(doc', calls[1..]);
      (doc'', [result] + results)
  }

  /**
   An accepted append leaves the document at least as long as its own end, so whatever is
   accepted later starts there or beyond.
   */
  lemma {:induction false} AcceptedOffsetsGrow(doc: Option<Bytes>, calls: seq<AppendCall>, i: nat)
    requires doc.Some? && i < |calls|
    requires AppendAll(doc, calls).1[i].Appended?
    ensures |doc.value| <= calls[i].oldLength
    ensures AppendAll(doc, calls).1[i].length == calls[i].oldLength + |calls[i].newData|
    decreases i
  {
    if i > 0 {
      AcceptedOffsetsGrow(AppendDocument(doc, calls[0].oldLength, calls[0].newData).0, calls[1..], i - 1);
    }
  }

  /** Two accepted appends, whatever happened between them, never claim the same byte. */
  lemma {:induction false} AcceptedRangesDisjoint(doc: Option<Bytes>, calls: seq<AppendCall>, i: nat, j: nat)
    requires doc.Some? && i < j < |calls|
    requires AppendAll(doc, calls).1[i].Appended? && AppendAll(doc, calls).1[j].Appended?
    ensures calls[i].oldLength + |calls[i].newData| <= calls[j].oldLength
    decreases i
  {
    var doc' := AppendDocument(doc, calls[0].oldLength, calls[0].newData).0;
    if i == 0 {
      AcceptedOffsetsGrow(doc', calls[1..], j - 1);
    } else {
      AcceptedRangesDisjoint(doc', calls[1..], i - 1, j - 1);
    }
  }

  /** Everybody appends at the current length: in every order the first is accepted and nobody else is. */
  lemma {:induction false} ExactlyOneWinner(doc: Bytes, calls: seq<AppendCall>)
    requires calls != []
    requires forall i :: 0 <= i < |calls| ==> calls[i].oldLength == |doc| && calls[i].newData != []
    ensures forall i :: 0 <= i < |calls| ==>
      var winner := doc + calls[0].newData;
      AppendAll(Some(doc), calls).1[i] == if i == 0 then Appended(|winner|) else AppendFailed(ErrConflict, |winner|)
    ensures AppendAll(Some(doc), calls).0 == Some(doc + calls[0].newData)
  {
    LosersAreRefused(doc + calls[0].newData, calls[1..]);
  }

  lemma {:induction false} LosersAreRefused(doc: Bytes, calls: seq<AppendCall>)
    requires forall i :: 0 <= i < |calls| ==> calls[i].oldLength < |doc|
    ensures AppendAll(Some(doc), calls).0 == Some(doc)
    ensures forall i :: 0 <= i < |calls| ==> AppendAll(Some(doc), calls).1[i] == AppendFailed(ErrConflict, |doc|)
  {
    if calls != [] {
      LosersAreRefused(doc, calls[1..]);
    }
  }
}
