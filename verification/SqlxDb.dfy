/**
 The SQL databases: every call is one transaction over two relations.  A row of the second must
 belong to a row of the first, and is deleted with it (sqlitedb.go:9-24).
 */
module SqlxDb {
  import opened Base
  import opened Store

  type Rows = map<(DocId, Name), Key>

  /** The keys of one document. */
  function Select(rows: Rows, docId: DocId): map<Name, Key> {
    map row | row in rows && row.0 == docId :: row.1 := rows[row]
  }

  lemma {:induction false} SelectAfterInsert(rows: Rows, docId: DocId, name: Name, key: Key)
    ensures Select(rows[(docId, name) := key], docId) == Select(rows, docId)[name := key]
    ensures forall other :: other != docId ==> Select(rows[(docId, name) := key], other) == Select(rows, other)
  {
  }

  class SqlxDb {
    /** ZwibblerDocs, by document. */
    var docs: Docs

    /** ZwibblerKeys, by document and name. */
    var keys: Rows

    ghost predicate Valid()
      reads this
    {
      forall row :: row in keys ==> keys[row].name == row.1 && row.0 in docs
    }

    constructor ()
      ensures Valid() && docs == map[] && keys == map[]
    {
      docs, keys := map[], map[];
    }

    method GetDocument(docId: DocId, mode: nat, initial: Bytes)
      returns (doc: Option<Bytes>, created: bool, error: Option<Error>)
      requires Valid()
      modifies this`docs
      ensures Valid() && GetMeets(old(docs), docs, docId, mode, initial, doc, created, error)
    {
      PutSame(docs, docId);
      created, doc, error := true, None, None;
      if docId in docs {
        doc := Some(docs[docId]);
        created := false;
      }
      if doc.None? && mode == NEVER_CREATE {
        doc, created, error := None, false, Some(ErrMissing);
        return;
      } else if doc.Some? && mode == ALWAYS_CREATE {
        doc, created, error := None, false, Some(ErrExists);
        return;
      }
      if doc.None? {
        doc := Some(initial);
        docs := docs[docId := initial];
      }
    }

    method AppendDocument(docId: DocId, oldLength: nat, newData: Bytes) returns (length: nat, error: Option<Error>)
      requires Valid()
      modifies this`docs
      ensures Valid() && AppendMeets(old(docs), docs, docId, oldLength, newData, length, error)
    {
      PutSame(docs, docId);
      var doc: Option<Bytes> := None;
      if docId in docs {
        doc := Some(docs[docId]);
      }
      if doc.None? {
        return 0, Some(ErrMissing);
      }
      if |doc.value| != oldLength {
        return |doc.value|, Some(ErrConflict);
      }
      var grown := doc.value + newData;
      docs := docs[docId := grown];
      return |grown|, None;
    }

    /** Inserting a key for a document that does not exist breaks the constraint, and the call panics. */
    method SetDocumentKey(docId: DocId, oldVersion: int, key: Key) returns (error: Option<Error>, panic: bool)
      requires Valid()
      modifies this`keys
      ensures Valid()
      ensures panic <==> docId !in docs && oldVersion == 0
      ensures panic ==> keys == old(keys)
      ensures !panic ==>
                var (after, ok) := Store.SetKey(Select(old(keys), docId), oldVersion, key);
                Select(keys, docId) == after && error == if ok then None else Some(ErrConflict)
      ensures var stored := docId in docs &&
                            if (docId, key.name) in old(keys) then old(keys)[(docId, key.name)].version == oldVersion
                            else oldVersion == 0;
              && (stored <==> error.None? && !panic)
              && keys == if stored then old(keys)[(docId, key.name) := key] else old(keys)
      ensures forall other :: other != docId ==> Select(keys, other) == Select(old(keys), other)
    {
      var found, dbVersion := false, 0;
      if (docId, key.name) in keys {
        found, dbVersion := true, keys[(docId, key.name)].version;
      }
      if found && dbVersion != oldVersion {
        return Some(ErrConflict), false;
      } else if !found && oldVersion != 0 {
        return Some(ErrConflict), false;
      }
      if docId !in docs {
        return None, true;
      }
      SelectAfterInsert(keys, docId, key.name, key);
      keys := keys[(docId, key.name) := key];
      return None, false;
    }

    method DeleteDocument(docId: DocId)
      requires Valid()
      modifies this
      ensures Valid()
      ensures docs == old(docs) - {docId} && Select(keys, docId) == map[]
      ensures forall other :: other != docId ==> Select(keys, other) == Select(old(keys), other)
    {
      docs := docs - {docId};
      keys := map row | row in keys && row.0 != docId :: keys[row];
    }
  }
}
