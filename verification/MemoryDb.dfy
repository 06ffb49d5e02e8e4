/** The in-memory database: documents are growable slices that may be extended in place. */
module MemoryDb {
  import opened Base
  import opened Store
  import Keys

  /** A Go slice: `length` visible bytes of an array from `start` on, and room up to `capacity`. */
  datatype Slice = Slice(buffer: array<Byte>, start: nat, length: nat, capacity: nat)

  predicate InBounds(s: Slice) {
    s.length <= s.capacity && s.start + s.capacity <= s.buffer.Length
  }

  function Visible(s: Slice): Bytes
    requires InBounds(s)
    reads s.buffer
  {
    s.buffer[s.start..s.start + s.length]
  }

  function End(s: Slice): nat { s.start + s.length }

  /** The built-in append; `spare` is the extra room the runtime chooses when it has to move the bytes. */
  method Append(s: Slice, data: Bytes, spare: nat) returns (r: Slice)
    requires InBounds(s)
    modifies s.buffer
    ensures InBounds(r) && Visible(r) == old(Visible(s)) + data
    ensures forall i :: 0 <= i < s.buffer.Length && !(End(s) <= i < End(r)) ==> s.buffer[i] == old(s.buffer[i])
    ensures if s.length + |data| <= s.capacity
            then r == s.(length := s.length + |data|)
            else fresh(r.buffer) && s.buffer[..] == old(s.buffer[..])
  {
    if s.length + |data| <= s.capacity {
      r := s.(length := s.length + |data|);
      forall i | 0 <= i < |data| {
        s.buffer[End(s) + i] := data[i];
      }
    } else {
      var moved := Visible(s) + data;
      var buffer := new Byte[|moved| + spare](_ => 0);
      forall i | 0 <= i < |moved| {
        buffer[i] := moved[i];
      }
      r := Slice(buffer, 0, |moved|, |moved| + spare);
      assert Visible(r) == moved;
    }
  }

  /** The document an array was made for, and how far its bytes are in use. */
  datatype Use = Use(doc: DocId, end: nat)

  /**
   What the documents hold, every slice ever returned to a caller with the bytes it showed then,
   and the arrays of both.
   */
  datatype Books = Books(contents: Docs, returned: set<(Slice, Bytes)>, uses: map<array<Byte>, Use>)

  /** Documents have arrays of their own, and a returned slice ends before the room its document may grow into. */
  ghost predicate Laid(docs: map<DocId, Slice>, b: Books) {
    && (forall id :: id in docs ==>
          InBounds(docs[id]) && docs[id].buffer in b.uses && b.uses[docs[id].buffer] == Use(id, End(docs[id])))
    && (forall h :: h in b.returned ==>
          InBounds(h.0) && h.0.buffer in b.uses && End(h.0) <= b.uses[h.0.buffer].end)
  }

  /** Every document shows its contents, and every returned slice the bytes it showed when it was returned. */
  ghost predicate Shown(docs: map<DocId, Slice>, b: Books)
    requires Laid(docs, b)
    reads b.uses.Keys
  {
    && docs.Keys == b.contents.Keys && (forall id :: id in docs ==> Visible(docs[id]) == b.contents[id])
    && forall h :: h in b.returned ==> Visible(h.0) == h.1
  }

  /** The books after a slice has become a document, and after one was returned. */
  ghost function Stored(b: Books, docId: DocId, s: Slice): Books
    requires InBounds(s)
    reads s.buffer
  {
    b.(contents := b.contents[docId := Visible(s)], uses := b.uses[s.buffer := Use(docId, End(s))])
  }

  ghost function Returned(b: Books, s: Slice): Books
    requires InBounds(s)
    reads s.buffer
  {
    b.(returned := b.returned + {(s, Visible(s))})
  }

  lemma {:induction false} GrownIsShown(docs: map<DocId, Slice>, b: Books, docId: DocId, s: Slice)
    requires Laid(docs, b) && docId in docs && docs.Keys == b.contents.Keys && InBounds(s)
    requires forall h :: h in b.returned ==> Visible(h.0) == h.1
    requires forall id :: id in docs && id != docId ==> Visible(docs[id]) == b.contents[id]
    requires s.buffer !in b.uses || (s.buffer == docs[docId].buffer && End(s) >= End(docs[docId]))
    ensures Laid(docs[docId := s], Stored(b, docId, s)) && Shown(docs[docId := s], Stored(b, docId, s))
  {
  }

  /** Appending to the slice of a document leaves every other document and every returned slice as it is. */
  method Grow(ghost docs: map<DocId, Slice>, ghost b: Books, ghost docId: DocId, s: Slice, data: Bytes, spare: nat)
    returns (grown: Slice)
    requires Laid(docs, b) && Shown(docs, b) && docId in docs && docs[docId] == s
    modifies s.buffer
    ensures InBounds(grown) && Visible(grown) == old(Visible(s)) + data
    ensures Laid(docs[docId := grown], Stored(b, docId, grown)) && Shown(docs[docId := grown], Stored(b, docId, grown))
    ensures forall h :: h in b.returned ==> Visible(h.0) == old(Visible(h.0))
    ensures grown.buffer == s.buffer || fresh(grown.buffer)
  {
    grown := Append(s, data, spare);
    assert forall h :: h in b.returned ==> Visible(h.0) == old(Visible(h.0));
    assert forall id :: id in docs && id != docId ==> Visible(docs[id]) == old(Visible(docs[id]));
    GrownIsShown(docs, b, docId, grown);
  }

  /** What a returned slice shows, if there is one. */
  function BytesOf(doc: Option<Slice>): Option<Bytes>
    requires doc.Some? ==> InBounds(doc.value)
    reads if doc.Some? then {doc.value.buffer} else {}
  {
    if doc.Some? then Some(Visible(doc.value)) else None
  }

  /** Finds or creates a document in the table of documents. */
  method Open(docs: map<DocId, Slice>, ghost b: Books, docId: DocId, mode: nat, initial: Slice)
    returns (docs': map<DocId, Slice>, ghost b': Books, doc: Option<Slice>, created: bool, error: Option<Error>)
    requires Laid(docs, b) && Shown(docs, b) && InBounds(initial)
    requires docId !in docs && mode != NEVER_CREATE ==> initial.buffer !in b.uses
    ensures Laid(docs', b') && Shown(docs', b') && (doc.Some? ==> InBounds(doc.value))
    ensures b'.uses.Keys <= b.uses.Keys + {initial.buffer}
    ensures GetMeets(b.contents, b'.contents, docId, mode, Visible(initial), BytesOf(doc), created, error)
    ensures b'.returned == b.returned + if doc.Some? then {(doc.value, Visible(doc.value))} else {}
  {
    docs', b', doc, created, error := docs, b, None, false, None;
    OpeningMeets(b.contents, docId, mode, Visible(initial));
    if docId !in docs && mode == NEVER_CREATE {
      error := Some(ErrMissing);
    } else if docId in docs && mode == ALWAYS_CREATE {
      error := Some(ErrExists);
    } else {
      if docId !in docs {
        docs', b', created := docs[docId := initial], Stored(b, docId, initial), true;
      }
      doc := Some(docs'[docId]);
      b' := Returned(b', docs'[docId]);
    }
  }

  class MemoryDb {
    var docs: map<DocId, Slice>
    var keys: map<DocId, seq<Key>>
    ghost var books: Books

    ghost predicate Valid()
      reads this, books.uses.Keys
    {
      Laid(docs, books) && Shown(docs, books)
    }

    constructor ()
      ensures Valid() && keys == map[] && books == Books(map[], {}, map[])
    {
      docs, keys, books := map[], map[], Books(map[], {}, map[]);
    }

    /** The initial data becomes a new document as it is: its array must not be in use already. */
    method GetDocument(docId: DocId, mode: nat, initial: Slice)
      returns (doc: Option<Slice>, created: bool, error: Option<Error>)
      requires Valid() && InBounds(initial)
      requires docId !in docs && mode != NEVER_CREATE ==> initial.buffer !in books.uses
      modifies this`docs, this`books
      ensures Valid() && books.uses.Keys <= old(books.uses.Keys) + {initial.buffer}
      ensures doc.Some? ==> InBounds(doc.value)
      ensures GetMeets(old(books.contents), books.contents, docId, mode, old(Visible(initial)), BytesOf(doc), created, error)
      ensures books.returned == old(books.returned) + if doc.Some? then {(doc.value, Visible(doc.value))} else {}
    {
      docs, books, doc, created, error := Open(docs, books, docId, mode, initial);
    }

    /** No slice returned before changes, wherever the document's bytes go. */
    method AppendDocument(docId: DocId, oldLength: nat, newData: Bytes, spare: nat)
      returns (length: nat, error: Option<Error>)
      requires Valid()
      modifies this`docs, this`books, books.uses.Keys
      ensures Valid() && fresh(books.uses.Keys - old(books.uses.Keys))
      ensures books.returned == old(books.returned)
      ensures forall h :: h in books.returned ==> Visible(h.0) == old(Visible(h.0))
      ensures AppendMeets(old(books.contents), books.contents, docId, oldLength, newData, length, error)
    {
      error := None;
      PutSame(books.contents, docId);
      if docId !in docs {
        length, error := 0, Some(ErrMissing);
      } else if docs[docId].length != oldLength {
        length, error := docs[docId].length, Some(ErrConflict);
      } else {
        var grown := Grow(docs, books, docId, docs[docId], newData, spare);
        docs, books := docs[docId := grown], Stored(books, docId, grown);
        length := grown.length;
      }
    }

    method SetDocumentKey(docId: DocId, oldVersion: int, key: Key) returns (error: Option<Error>)
      modifies this`keys
      ensures var (after, ok) := SetKeyInList(old(if docId in keys then keys[docId] else []), oldVersion, key);
              && error == (if ok then None else Some(ErrConflict))
              && keys == if ok then old(keys)[docId := after] else old(keys)
    {
      var list := if docId in keys then keys[docId] else [];
      var i := 0;
      while i < |list| && list[i].name != key.name
        invariant 0 <= i <= |list| && forall j :: 0 <= j < i ==> list[j].name != key.name
      {
        i := i + 1;
      }
      if i == |list| || list[i].version == oldVersion {
        keys := keys[docId := list + [key]];
        error := None;
      } else {
        error := Some(ErrConflict);
      }
    }

    method DeleteDocument(docId: DocId)
      requires Valid()
      modifies this
      ensures Valid() && books == old(books.(contents := books.contents - {docId}))
      ensures keys == old(keys) - {docId}
    {
      docs, keys, books := docs - {docId}, keys - {docId}, books.(contents := books.contents - {docId});
    }
  }

  // ----- Document keys ------------------------------------------------------------------

  /** As coded: an accepted key is always added at the end, also when the name is listed already. */
  function SetKeyInList(list: seq<Key>, oldVersion: int, key: Key): (seq<Key>, bool) {
    var i := Keys.Find(list, key.name);
    if i == |list| || list[i].version == oldVersion then (list + [key], true) else (list, false)
  }

  /** The keys as the next compare-and-set finds them: the first of each name. */
  function Table(list: seq<Key>): map<Name, Key> {
    map n | n in (set k | k in list :: k.name) && Keys.Find(list, n) < |list| :: list[Keys.Find(list, n)]
  }

  predicate MeetsContract(list: seq<Key>, oldVersion: int, key: Key) {
    var (after, ok) := SetKeyInList(list, oldVersion, key);
    var (table, stored) := Store.SetKey(Table(list), oldVersion, key);
    ok == stored && Table(after) == table
  }

  predicate IsFirst(list: seq<Key>, i: nat, name: Name) {
    i < |list| && list[i].name == name && forall j :: 0 <= j < i ==> list[j].name != name
  }

  /**
   A call is accepted if the name is not listed yet, whatever version it names, or if the version is
   that of the first entry; then the key is listed last, and otherwise nothing changes.
   */
  lemma {:induction false} AcceptedIff(list: seq<Key>, oldVersion: int, key: Key)
    ensures var (after, ok) := SetKeyInList(list, oldVersion, key);
            && (ok <==> forall i: nat :: IsFirst(list, i, key.name) ==> list[i].version == oldVersion)
            && after == list + if ok then [key] else []
  {
    var i := Keys.Find(list, key.name);
    assert list + [] == list;
    if i < |list| {
      assert IsFirst(list, i, key.name);
    }
  }

  lemma {:induction false} FindInLonger(list: seq<Key>, key: Key, name: Name)
    ensures var i, j := Keys.Find(list, name), Keys.Find(list + [key], name);
            if i < |list| then j == i else j == if key.name == name then |list| else |list| + 1
  {
    var i, j := Keys.Find(list, name), Keys.Find(list + [key], name);
    assert i < |list| ==> (list + [key])[i] == list[i];
    assert j < |list| ==> list[j] == (list + [key])[j];
    assert (list + [key])[|list|] == key;
  }

  lemma {:induction false} TableFinds(list: seq<Key>, name: Name)
    ensures name in Table(list) <==> Keys.Find(list, name) < |list|
    ensures name in Table(list) ==> Table(list)[name] == list[Keys.Find(list, name)]
  {
    var i := Keys.Find(list, name);
    if i < |list| {
      assert list[i] in list;
    }
  }

  lemma {:induction false} TableOfLonger(list: seq<Key>, key: Key)
    ensures Table(list + [key]) == if key.name in Table(list) then Table(list) else Table(list)[key.name := key]
  {
    var expected := if key.name in Table(list) then Table(list) else Table(list)[key.name := key];
    forall n ensures n in Table(list + [key]) <==> n in expected
             ensures n in expected ==> Table(list + [key])[n] == expected[n]
    {
      FindInLonger(list, key, n);
      TableFinds(list, n);
      TableFinds(list, key.name);
      TableFinds(list + [key], n);
    }
  }

  /**
   Exactly when setting a document key in this database is the compare-and-set of the contract:
   when the version differs, when a new key is set from version 0, or when nothing changes.
   */
  lemma {:induction false} SetKeyMeetsContractIff(list: seq<Key>, oldVersion: int, key: Key)
    ensures MeetsContract(list, oldVersion, key) <==>
            var table := Table(list);
            if key.name in table then table[key.name].version == oldVersion ==> table[key.name] == key
            else oldVersion == 0
  {
    TableFinds(list, key.name);
    TableOfLonger(list, key);
    var table := Table(list);
    if key.name in table && table[key.name].version == oldVersion {
      assert table[key.name := key][key.name] == key;
      assert table[key.name] == key ==> table[key.name := key] == table;
    }
  }

  /** The version a key was created with stays the one to name: every such call is accepted, so updates are lost. */
  lemma {:induction false} FirstVersionAlwaysAccepted(list: seq<Key>, first: Key, second: Key, oldVersion: int)
    requires first.name == second.name && SetKeyInList(list, oldVersion, first).1 && first.name in Table(list)
    ensures SetKeyInList(SetKeyInList(list, oldVersion, first).0, oldVersion, second).1
  {
    TableFinds(list, first.name);
    FindInLonger(list, first, first.name);
  }
}
