/** The hub's record of one document: the clients connected to it and the keys they hold. */
module Sessions {
  import opened Base
  import opened Store
  import Webhooks

  datatype ClientKey = ClientKey(key: Key, owner: ClientId)

  /** The clients are named by their ids, or are the client objects themselves. */
  datatype Session<C> = Session(clients: seq<C>, keys: seq<ClientKey>)

  // ----- Keys ---------------------------------------------------------------------------

  function FindKey(keys: seq<ClientKey>, name: Name): (i: nat)
    ensures i <= |keys|
    ensures i < |keys| ==> keys[i].key.name == name
    ensures forall j :: 0 <= j < i ==> keys[j].key.name != name
    decreases |keys|
  {
    if keys == [] || keys[0].key.name == name then 0 else 1 + FindKey(keys[1..], name)
  }

  /** Compare-and-set: the new list of keys, and whether the key was stored. */
  function SetKey(keys: seq<ClientKey>, oldVersion: int, newKey: ClientKey): (seq<ClientKey>, bool) {
    var i := FindKey(keys, newKey.key.name);
    if i < |keys| then
      if keys[i].key.version == oldVersion then (keys[i := newKey], true) else (keys, false)
    else if oldVersion == 0 then (keys + [newKey], true)
    else (keys, false)
  }

  predicate UniqueKeyNames(keys: seq<ClientKey>) {
    forall i, j :: 0 <= i < j < |keys| ==> keys[i].key.name != keys[j].key.name
  }

  /** The keys as a table. */
  function KeyTable(keys: seq<ClientKey>): map<Name, ClientKey>
    decreases |keys|
  {
    if keys == [] then map[]
    else KeyTable(keys[..|keys| - 1])[keys[|keys| - 1].key.name := keys[|keys| - 1]]
  }

  lemma {:induction false} KeyTableFinds(keys: seq<ClientKey>, name: Name)
    requires UniqueKeyNames(keys)
    ensures name in KeyTable(keys) <==> FindKey(keys, name) < |keys|
    ensures name in KeyTable(keys) ==> KeyTable(keys)[name] == keys[FindKey(keys, name)]
    decreases |keys|
  {
    if keys != [] {
      var front := keys[..|keys| - 1];
      KeyTableFinds(front, name);
      var i, j := FindKey(front, name), FindKey(keys, name);
      assert i < |front| ==> keys[i] == front[i];
      assert j < |front| ==> front[j] == keys[j];
    }
  }

  /**
   Setting a client key is the compare-and-set of the database contract on the table of the
   session's keys, and names stay unique.
   */
  lemma {:induction false} SetKeyMeetsContract(keys: seq<ClientKey>, oldVersion: int, newKey: ClientKey)
    requires UniqueKeyNames(keys)
    ensures var table, name := KeyTable(keys), newKey.key.name;
            SetKey(keys, oldVersion, newKey).1 ==
            if name in table then table[name].key.version == oldVersion else oldVersion == 0
    ensures UniqueKeyNames(SetKey(keys, oldVersion, newKey).0)
    ensures KeyTable(SetKey(keys, oldVersion, newKey).0) ==
            if SetKey(keys, oldVersion, newKey).1 then KeyTable(keys)[newKey.key.name := newKey] else KeyTable(keys)
  {
    var i := FindKey(keys, newKey.key.name);
    KeyTableFinds(keys, newKey.key.name);
    if i < |keys| {
      ReplacedKeyInTable(keys, i, newKey);
    } else {
      AddedKeyInTable(keys, newKey);
    }
  }

  lemma {:induction false} AddedKeyInTable(keys: seq<ClientKey>, newKey: ClientKey)
    requires UniqueKeyNames(keys) && FindKey(keys, newKey.key.name) == |keys|
    ensures UniqueKeyNames(keys + [newKey])
    ensures KeyTable(keys + [newKey]) == KeyTable(keys)[newKey.key.name := newKey]
  {
    assert (keys + [newKey])[..|keys|] == keys;
  }

  lemma {:induction false} ReplacedKeyInTable(keys: seq<ClientKey>, i: nat, newKey: ClientKey)
    requires UniqueKeyNames(keys) && i < |keys| && keys[i].key.name == newKey.key.name
    ensures UniqueKeyNames(keys[i := newKey])
    ensures KeyTable(keys[i := newKey]) == KeyTable(keys)[newKey.key.name := newKey]
    decreases |keys|
  {
    var front, last := keys[..|keys| - 1], keys[|keys| - 1];
    if i == |front| {
      assert keys[i := newKey][..i] == front;
    } else {
      assert keys[i := newKey][..|front|] == front[i := newKey];
      ReplacedKeyInTable(front, i, newKey);
    }
  }

  function OwnedBy(owner: ClientId): ClientKey -> bool { (k: ClientKey) => k.owner == owner }

  /** The keys a departing client leaves, and those it takes along, emptied and one version on. */
  function OthersKeys(keys: seq<ClientKey>, owner: ClientId): seq<ClientKey> {
    Webhooks.Reject(keys, OwnedBy(owner))
  }

  function Tombstones(keys: seq<ClientKey>, owner: ClientId): seq<Key>
    decreases |keys|
  {
    if keys == [] then []
    else
      var last := keys[|keys| - 1];
      Tombstones(keys[..|keys| - 1], owner) +
      if last.owner == owner then [Key(last.key.version + 1, last.key.name, [])] else []
  }

  lemma {:induction false} TombstonesAre(keys: seq<ClientKey>, owner: ClientId)
    ensures forall t :: t in Tombstones(keys, owner) <==>
              exists k :: k in keys && k.owner == owner && t == Key(k.key.version + 1, k.key.name, [])
    ensures |Tombstones(keys, owner)| + |OthersKeys(keys, owner)| == |keys|
    decreases |keys|
  {
    if keys != [] {
      var front, last := keys[..|keys| - 1], keys[|keys| - 1];
      assert keys == front + [last];
      TombstonesAre(front, owner);
      assert forall k :: k in keys <==> k in front || k == last;
    }
  }

  lemma {:induction false} OthersKeysAreUnique(keys: seq<ClientKey>, owner: ClientId)
    requires UniqueKeyNames(keys)
    ensures UniqueKeyNames(OthersKeys(keys, owner))
    ensures forall k :: k in OthersKeys(keys, owner) <==> k in keys && k.owner != owner
    decreases |keys|
  {
    Webhooks.FilterMembers(keys, OwnedBy(owner));
    if keys != [] {
      var front := keys[..|keys| - 1];
      OthersKeysAreUnique(front, owner);
    }
  }

  // ----- Clients ------------------------------------------------------------------------

  /** Puts the last element in place i and shortens the list. */
  function SwapRemove<T>(xs: seq<T>, i: nat): seq<T>
    requires i < |xs|
  {
    xs[i := xs[|xs| - 1]][..|xs| - 1]
  }

  function IndexOf(ids: seq<ClientId>, id: ClientId): (i: nat)
    ensures i <= |ids|
    ensures i < |ids| ==> ids[i] == id
    ensures forall j :: 0 <= j < i ==> ids[j] != id
    decreases |ids|
  {
    if ids == [] || ids[0] == id then 0 else 1 + IndexOf(ids[1..], id)
  }

  function RemoveId(ids: seq<ClientId>, id: ClientId): seq<ClientId> {
    var i := IndexOf(ids, id);
    if i < |ids| then SwapRemove(ids, i) else ids
  }

  lemma {:induction false} RemoveIdRemoves(ids: seq<ClientId>, id: ClientId)
    requires Distinct(ids)
    ensures Distinct(RemoveId(ids, id))
    ensures forall x :: x in RemoveId(ids, id) <==> x in ids && x != id
  {
    var i := IndexOf(ids, id);
    if i < |ids| {
      var r := RemoveId(ids, id);
      forall x | x in ids && x != id ensures x in r {
        var k :| 0 <= k < |ids| && ids[k] == x;
        assert k < |ids| - 1 ==> r[k] == x;
        assert k == |ids| - 1 ==> r[i] == x;
      }
      forall x | x in r ensures x in ids && x != id {
        var k :| 0 <= k < |r| && r[k] == x;
        assert r[k] == if k == i then ids[|ids| - 1] else ids[k];
      }
    }
  }
}
