/** The connection and hub objects of the server, whose methods follow the functions of the other modules. */
module Server {
  import opened Base
  import opened Store
  import P = Protocol
  import K = Keys
  import S = Sessions
  import Access
  import HubRuns
  import KeyRuns
  import SqlxDb
  import Webhooks

  const DEFAULT_MAX_SIZE: nat := 100 * 1024

  const ADMIN_PREFIX: Name := Ascii("admin:")

  function Ascii(text: string): Bytes
    requires forall i :: 0 <= i < |text| ==> text[i] < 128 as char
  {
    seq(|text|, i requires 0 <= i < |text| => text[i] as int)
  }

  class Client {
    const id: ClientId
    var docId: DocId
    var protocolVersion: nat
    var maxSize: nat
    var lastEnd: nat
    var userId: string
    var writePermission: bool
    var adminPermission: bool
    var closed: bool
    var queued: seq<P.Message>
    var keys: seq<Key>

    constructor (id: ClientId)
      ensures this.id == id && Conn() == P.Conn(0, [], false) && keys == [] && !closed && !adminPermission
      ensures maxSize == 102400 && docId == "" && userId == ""
    {
      this.id := id;
      docId, userId, protocolVersion, maxSize := "", "", 0, DEFAULT_MAX_SIZE;
      lastEnd, queued, keys := 0, [], [];
      writePermission, adminPermission, closed := false, false, false;
    }

    /** The part of the connection that the append protocol is about. */
    ghost function Conn(): P.Conn
      reads this`lastEnd, this`queued, this`writePermission
    {
      P.Conn(lastEnd, queued, writePermission)
    }

    method Enqueue(message: P.Message)
      modifies this`queued
      ensures Conn() == P.Enqueue(old(Conn()), message)
    {
      queued := queued + [message];
    }

    method EnqueueAppend(data: Bytes, offset: nat)
      modifies this`lastEnd, this`queued
      ensures Conn() == P.EnqueueAppend(old(Conn()), data, offset)
    {
      if offset < lastEnd {
        return;
      }
      lastEnd := offset + |data|;
      Enqueue(P.AppendMsg(offset, data));
    }

    /** A queued update of the same name is replaced unless it is newer. */
    method NotifyKeysUpdated(batch: seq<Key>)
      modifies this`keys
      ensures keys == K.CoalesceAll(old(keys), batch)
    {
      for n := 0 to |batch|
        invariant keys == K.CoalesceAll(old(keys), batch[..n])
      {
        var key, i := batch[n], 0;
        while i < |keys| && keys[i].name != key.name
          invariant 0 <= i <= |keys| && forall j :: 0 <= j < i ==> keys[j].name != key.name
        {
          i := i + 1;
        }
        assert batch[..n + 1][..n] == batch[..n];
        if i == |keys| {
          keys := keys + [key];
        } else if key.version >= keys[i].version {
          keys := keys[i := key];
        }
      }
      assert batch[..|batch|] == batch;
    }

    /** What CheckMissedUpdate does for one client. */
    method CatchUp(doc: Bytes, batch: seq<Key>)
      modifies this`lastEnd, this`queued, this`keys
      ensures Conn() == if doc == [] then old(Conn()) else P.EnqueueAppend(old(Conn()), doc, 0)
      ensures keys == K.CoalesceAll(old(keys), batch)
    {
      if |doc| > 0 {
        EnqueueAppend(doc, 0);
      }
      NotifyKeysUpdated(batch);
    }

    /** One round of the write thread takes everything that is queued. */
    method Drain() returns (messages: seq<P.Message>, updates: seq<Key>, last: bool)
      modifies this`queued, this`keys
      ensures messages == old(queued) && updates == old(keys) && last == closed
      ensures queued == [] && keys == []
    {
      messages, updates, last := queued, keys, closed;
      queued, keys := [], [];
    }

    method NotifyLostAccess(code: nat)
      modifies this`queued, this`closed
      ensures Conn() == P.Enqueue(old(Conn()), P.ErrorMsg(code)) && closed
    {
      Enqueue(P.ErrorMsg(code));
      closed := true;
    }

    method NotifyPermissionChange(permissions: string)
      modifies this`writePermission, this`adminPermission, this`queued, this`closed
      ensures writePermission == ('w' in permissions) && adminPermission == ('a' in permissions)
      ensures if 'r' in permissions then queued == old(queued) && closed == old(closed)
              else queued == old(queued) + [P.ErrorMsg(P.ERROR_ACCESS_DENIED)] && closed
    {
      writePermission := 'w' in permissions;
      adminPermission := 'a' in permissions;
      if 'r' !in permissions {
        NotifyLostAccess(P.ERROR_ACCESS_DENIED);
      }
    }

    /** The first half of processInitMessage: the document and the rights, and a refusal if there is one. */
    method SettleRights(grant: Access.Grant, hasJwtKey: bool, claimed: DocId, mode: nat)
      returns (refused: Option<nat>, newMode: nat, codeOnMissing: nat)
      modifies this`docId, this`userId, this`writePermission, this`adminPermission
      ensures match Access.Authorize(grant, hasJwtKey, claimed, mode)
              case Denied(code) => refused == Some(code)
              case Allowed(doc, user, canWrite, isAdmin, mode', code) =>
                && refused.None? && newMode == mode' && codeOnMissing == code
                && docId == doc && writePermission == canWrite
                && (grant.Granted? ==> userId == user && adminPermission == isAdmin)
      ensures refused.None? <==> Access.Admits(grant, hasJwtKey, mode)
      ensures grant.Granted? ==>
                && docId == grant.docId && userId == grant.userId
                && writePermission == ('w' in grant.permissions) && adminPermission == ('a' in grant.permissions)
      ensures grant.NoToken? && !hasJwtKey ==>
                docId == claimed && writePermission && userId == old(userId) && adminPermission == old(adminPermission)
    {
      refused, newMode, codeOnMissing := None, mode, P.ERROR_DOES_NOT_EXIST;
      if grant.Granted? {
        docId, userId := grant.docId, grant.userId;
        writePermission, adminPermission := 'w' in grant.permissions, 'a' in grant.permissions;
        if 'r' !in grant.permissions || (mode == ALWAYS_CREATE && !writePermission) {
          refused := Some(P.ERROR_ACCESS_DENIED);
        } else if !writePermission && mode == POSSIBLY_CREATE {
          newMode, codeOnMissing := NEVER_CREATE, P.ERROR_ACCESS_DENIED;
        }
      } else if grant.NoToken? && !hasJwtKey {
        docId, writePermission := claimed, true;
      } else if !grant.LookupFailed? && hasJwtKey {
        refused := Some(P.ERROR_ACCESS_DENIED);
      } else {
        refused := Some(Access.ERROR_UNSPECIFIED);
      }
    }

    /** The second half: open the document and queue what the client lacks. */
    method OpenDocument(db: SqlxDb.SqlxDb, mode: nat, initial: Bytes, claimed: nat, codeOnMissing: nat)
      returns (ok: bool, panic: bool)
      requires db.Valid()
      modifies this`lastEnd, this`queued, db`docs
      ensures db.Valid()
      ensures var (after, outcome) := P.InitReply(Lookup(old(db.docs), docId), mode, initial, claimed, codeOnMissing);
              && db.docs == Put(old(db.docs), docId, after)
              && panic == outcome.Panic? && ok == outcome.Welcome?
              && Conn() == match outcome {
                             case Refused(code) => P.Enqueue(old(Conn()), P.ErrorMsg(code))
                             case Welcome(from, range) => P.EnqueueAppend(old(Conn()), range, from)
                             case Panic => old(Conn())
                           }
      ensures docId in old(db.docs) && mode != ALWAYS_CREATE && claimed < TWO63 ==>
                && ok == (claimed <= |old(db.docs)[docId]|) && !panic && db.docs == old(db.docs)
                && (!ok ==> queued == old(queued) + [P.ErrorMsg(3)])
                && (ok && old(lastEnd) <= claimed ==>
                      queued == old(queued) + [P.AppendMsg(claimed, old(db.docs)[docId][claimed..])])
    {
      ok, panic := false, false;
      PutSame(db.docs, docId);
      var doc, created, error := db.GetDocument(docId, mode, initial);
      if error.Some? {
        Enqueue(P.ErrorMsg(if error.value == ErrExists then P.ERROR_ALREADY_EXISTS else codeOnMissing));
        return;
      }
      var from := Wrap(claimed);
      if created {
        from := |doc.value|;
      }
      if |doc.value| < from {
        Enqueue(P.ErrorMsg(P.ERROR_INVALID_OFFSET));
        return;
      }
      if from < 0 {
        panic := true;
        return;
      }
      EnqueueAppend(doc.value[from..], from);
      ok := true;
    }

    /** Whether the connection goes on, and whether the handler panics. */
    method ProcessInitMessage(db: SqlxDb.SqlxDb, version: nat, maxMessageSize: nat, mode: nat, offset: nat,
                              claimed: DocId, data: Bytes, grant: Access.Grant, hasJwtKey: bool)
      returns (ok: bool, panic: bool)
      requires db.Valid()
      modifies this, db`docs
      ensures db.Valid()
      ensures version != 2 && version != 3 ==>
                !ok && !panic && db.docs == old(db.docs) && Conn() == old(Conn()) && docId == old(docId)
      ensures version == 2 || version == 3 ==>
                && protocolVersion == version
                && maxSize == (if maxMessageSize != 0 then maxMessageSize else old(maxSize))
                && match Access.Authorize(grant, hasJwtKey, claimed, mode) {
                     case Denied(code) =>
                       !ok && !panic && db.docs == old(db.docs) && queued == old(queued) + [P.ErrorMsg(code)]
                     case Allowed(doc, _, canWrite, _, mode', code) =>
                       var (after, outcome) := P.InitReply(Lookup(old(db.docs), doc), mode', data, offset, code);
                       && docId == doc && db.docs == Put(old(db.docs), doc, after)
                       && panic == outcome.Panic? && ok == outcome.Welcome?
                       && Conn() == var conn := old(Conn()).(canWrite := canWrite);
                                    match outcome {
                                      case Refused(c) => P.Enqueue(conn, P.ErrorMsg(c))
                                      case Welcome(from, range) => P.EnqueueAppend(conn, range, from)
                                      case Panic => conn
                                    }
                   }
    {
      ok, panic := false, false;
      if version != 2 && version != 3 {
        return;
      }
      protocolVersion := version;
      if maxMessageSize != 0 {
        maxSize := maxMessageSize;
      }
      var refused, newMode, codeOnMissing := SettleRights(grant, hasJwtKey, claimed, mode);
      if refused.Some? {
        Enqueue(P.ErrorMsg(refused.value));
        return;
      }
      ok, panic := OpenDocument(db, newMode, data, offset, codeOnMissing);
    }

    /** What the hub is asked to pass on is returned. */
    method ProcessAppend(db: SqlxDb.SqlxDb, offset: nat, data: Bytes) returns (post: Option<P.Post>)
      requires db.Valid()
      modifies this`lastEnd, this`queued, db`docs
      ensures db.Valid()
      ensures var (after, conn, posted) := P.HandleAppend(Lookup(old(db.docs), docId), old(Conn()), id, offset, data);
              db.docs == Put(old(db.docs), docId, after) && Conn() == conn && post == posted
    {
      post := None;
      var payload := data;
      if !writePermission {
        payload := [];
      }
      var newLength, error := db.AppendDocument(docId, offset, payload);
      if error.None? && writePermission {
        Enqueue(P.AckNackMsg(P.ACK, newLength));
        lastEnd := newLength;
        post := Some(P.Post(id, offset, payload));
      } else if error.None? {
        Enqueue(P.AckNackMsg(P.NO_PERMISSION, newLength));
      } else if error.value == ErrConflict {
        Enqueue(P.AckNackMsg(P.NACK, newLength));
      } else {
        Enqueue(P.ErrorMsg(P.ERROR_DOES_NOT_EXIST));
      }
    }

    /** A refusal is always answered, a success only when asked for. */
    predicate Answered(before: seq<P.Message>, ack: bool, wanted: bool, requestId: nat)
      reads this`queued
    {
      queued == if !ack || wanted then before + [P.SetKeyAckNackMsg(ack, requestId)] else before
    }

    /** A key that lives as long as the document goes to the database, any other to the hub. */
    method ProcessSetKey(hub: Hub, db: SqlxDb.SqlxDb, lifetime: nat, oldVersion: int, requestId: nat, key: Key)
      returns (announce: Option<Key>, panic: bool)
      requires db.Valid() && hub.Valid()
      modifies this`queued, hub`sessions, hub.ClientsOf(docId)`keys, db`keys
      ensures db.Valid() && hub.Valid()
      ensures forall other :: other != docId ==> SqlxDb.Select(db.keys, other) == SqlxDb.Select(old(db.keys), other)
      ensures panic <==> lifetime != 0 && (ADMIN_PREFIX <= key.name ==> adminPermission) &&
                         docId !in db.docs && oldVersion == 0
      ensures if ADMIN_PREFIX <= key.name && !adminPermission then
                Answered(old(queued), false, true, requestId) && hub.sessions == old(hub.sessions) && db.keys == old(db.keys)
              else if lifetime == 0 then
                && db.keys == old(db.keys)
                && if docId !in old(hub.sessions) then
                     hub.sessions == old(hub.sessions) && Answered(old(queued), false, true, requestId)
                   else
                     var s := old(hub.sessions)[docId];
                     var (after, ok) := S.SetKey(s.keys, oldVersion, S.ClientKey(key, id));
                     && hub.sessions == old(hub.sessions)[docId := s.(keys := after)]
                     && Answered(old(queued), ok, oldVersion != key.version, requestId)
                     && forall c :: c in s.clients ==>
                          c.keys == if ok && c.id != id then K.CoalesceAll(old(c.keys), [key]) else old(c.keys)
              else
                && hub.sessions == old(hub.sessions)
                && (!panic ==>
                      var (after, ok) := Store.SetKey(SqlxDb.Select(old(db.keys), docId), oldVersion, key);
                      && SqlxDb.Select(db.keys, docId) == after
                      && announce == (if ok then Some(key) else None)
                      && Answered(old(queued), ok, oldVersion != key.version, requestId))
    {
      announce, panic := None, false;
      var ack := false;
      if ADMIN_PREFIX <= key.name && !adminPermission {
      } else if lifetime == 0 {
        ack := hub.SetClientKey(docId, id, oldVersion, key);
      } else {
        var error;
        error, panic := db.SetDocumentKey(docId, oldVersion, key);
        if panic {
          return;
        }
        ack := error.None?;
        if ack {
          announce := Some(key);
        }
      }
      if !ack || oldVersion != key.version {
        Enqueue(P.SetKeyAckNackMsg(ack, requestId));
      }
    }
  }

  function Ids(clients: seq<Client>): (r: seq<ClientId>)
    ensures |r| == |clients| && forall i :: 0 <= i < |r| ==> r[i] == clients[i].id
  {
    seq(|clients|, i requires 0 <= i < |clients| => clients[i].id)
  }

  type SessionMap = map<DocId, S.Session<Client>>

  /** Sessions with the ids of the clients in place of the clients. */
  function ById(sessions: SessionMap): map<DocId, S.Session<ClientId>> {
    map docId | docId in sessions :: S.Session(Ids(sessions[docId].clients), sessions[docId].keys)
  }

  lemma {:induction false} ByIdAfter(sessions: SessionMap, docId: DocId, s: S.Session<Client>)
    ensures ById(sessions[docId := s]) == ById(sessions)[docId := S.Session(Ids(s.clients), s.keys)]
    ensures ById(sessions - {docId}) == ById(sessions) - {docId}
  {
  }

  lemma {:induction false} IdsAfterSwap(clients: seq<Client>, i: nat)
    requires i < |clients|
    ensures Ids(S.SwapRemove(clients, i)) == S.SwapRemove(Ids(clients), i)
  {
  }

  /** The state of the hub as the runs of HubRuns see it. */
  ghost function WorldOf(sessions: SessionMap, hooks: seq<Webhooks.Event>, hasUrl: bool, now: int): HubRuns.World {
    HubRuns.World(ById(sessions), hooks, hasUrl, map[], now, map[], multiset{}, multiset{}, multiset{})
  }

  /** What a departure leaves in the hub. */
  lemma {:induction false} Departure(sessions: SessionMap, hooks: seq<Webhooks.Event>, hasUrl: bool, now: int,
                                     docId: DocId, clientId: ClientId, rest: S.Session<Client>)
    requires docId in sessions
    requires Ids(rest.clients) == S.RemoveId(Ids(sessions[docId].clients), clientId)
    requires rest.keys == S.OthersKeys(sessions[docId].keys, clientId)
    ensures var after := HubRuns.RemoveClient(WorldOf(sessions, hooks, hasUrl, now), docId, clientId);
            if clientId in Ids(sessions[docId].clients) && rest.clients == [] then
              && after.sessions == ById(sessions - {docId})
              && after.hooks ==
                 hooks + if hasUrl then [Webhooks.Event(Webhooks.IDLE_SESSION, docId, now + Webhooks.IDLE_DELAY)] else []
            else after.sessions == ById(sessions[docId := rest]) && after.hooks == hooks
  {
    ByIdAfter(sessions, docId, rest);
  }

  /** The loop that takes a departing client out of the list, putting the last one in its place. */
  method DropClient(list: seq<Client>, clientId: ClientId) returns (clients: seq<Client>, found: bool)
    requires Distinct(list)
    ensures Ids(clients) == S.RemoveId(Ids(list), clientId) && Distinct(clients)
    ensures found <==> clientId in Ids(list)
    ensures forall i :: 0 <= i < |clients| ==> clients[i] in list
  {
    clients, found := list, false;
    var i := 0;
    while i < |clients| && clients[i].id != clientId
      invariant 0 <= i <= |clients| && forall j :: 0 <= j < i ==> clients[j].id != clientId
    {
      i := i + 1;
    }
    if i < |clients| {
      IdsAfterSwap(clients, i);
      clients, found := S.SwapRemove(clients, i), true;
      assert Ids(list)[i] in Ids(list);
    }
  }

  /** The in-place loop that takes the keys of a departing client out of the list. */
  method DropKeys(list: seq<S.ClientKey>, owner: ClientId) returns (keys: seq<S.ClientKey>, removed: seq<Key>)
    ensures keys == S.OthersKeys(list, owner)
    ensures removed == S.Tombstones(list, owner)
  {
    keys, removed := list, [];
    var n := 0;
    assert list[..0] == [];
    for i := 0 to |list|
      invariant 0 <= n <= i && |keys| == |list| && keys[i..] == list[i..]
      invariant keys[..n] == S.OthersKeys(list[..i], owner)
      invariant removed == S.Tombstones(list[..i], owner)
    {
      var key := keys[i];
      assert key == keys[i..][0] == list[i];
      assert list[..i + 1][..i] == list[..i];
      Webhooks.FilterSnoc(list, i, S.OwnedBy(owner));
      if key.owner != owner {
        ghost var before := keys;
        keys := keys[n := key];
        assert keys[..n + 1] == before[..n] + [key];
        assert keys[i + 1..] == before[i..][1..];
        n := n + 1;
      } else {
        assert keys[i + 1..] == keys[i..][1..];
        removed := removed + [Key(key.key.version + 1, key.key.name, [])];
      }
    }
    assert list[..|list|] == list;
    keys := keys[..n];
  }

  /** The closures that the hub runs one after the other. */
  class Hub {
    var sessions: SessionMap
    const hooks: Webhooks.WebhookQueue
    var webhookUrl: string

    ghost predicate Valid()
      reads this
    {
      forall docId :: docId in sessions ==> Distinct(sessions[docId].clients)
    }

    function ClientsOf(docId: DocId): seq<Client>
      reads this
    {
      if docId in sessions then sessions[docId].clients else []
    }

    ghost function World(now: int): HubRuns.World
      reads this, hooks
    {
      WorldOf(sessions, hooks.events, webhookUrl != "", now)
    }

    constructor ()
      ensures Valid() && sessions == map[] && fresh(hooks) && hooks.events == [] && webhookUrl == ""
    {
      sessions, webhookUrl := map[], "";
      hooks := new Webhooks.WebhookQueue();
    }

    method AddClient(docId: DocId, c: Client, now: int)
      requires Valid() && c !in ClientsOf(docId)
      modifies this`sessions, hooks
      ensures Valid()
      ensures var after := HubRuns.AddClient(old(World(now)), docId, c.id);
              World(now).sessions == after.sessions && World(now).hooks == after.hooks
      ensures ClientsOf(docId) == old(ClientsOf(docId)) + [c]
      ensures sessions.Keys == old(sessions).Keys + {docId}
      ensures forall other :: other in old(sessions) ==>
                && sessions[other].keys == old(sessions)[other].keys
                && (other != docId ==> sessions[other].clients == old(sessions)[other].clients)
      ensures docId !in old(sessions) ==> sessions[docId].keys == []
    {
      if docId !in sessions {
        ByIdAfter(sessions, docId, S.Session([c], []));
        assert Ids([c]) == [c.id];
        sessions := sessions[docId := S.Session([c], [])];
        hooks.RemoveIf(HubRuns.IdleFor(docId));
      } else {
        var s := sessions[docId];
        ByIdAfter(sessions, docId, s.(clients := s.clients + [c]));
        assert Ids(s.clients + [c]) == Ids(s.clients) + [c.id];
        sessions := sessions[docId := s.(clients := s.clients + [c])];
      }
    }

    /** The first half of RemoveClient: the clients that stay, and the updates they are owed. */
    method TakeOut(docId: DocId, clientId: ClientId, now: int) returns (clients: seq<Client>, removed: seq<Key>)
      requires Valid() && docId in sessions
      modifies this`sessions, hooks
      ensures Valid() && clients == ClientsOf(docId) && Distinct(clients)
      ensures forall i :: 0 <= i < |clients| ==> clients[i] in old(ClientsOf(docId))
      ensures removed == S.Tombstones(old(sessions)[docId].keys, clientId)
      ensures var after := HubRuns.RemoveClient(old(World(now)), docId, clientId);
              World(now).sessions == after.sessions && World(now).hooks == after.hooks
    {
      var s, keys, found := sessions[docId], [], false;
      clients, found := DropClient(s.clients, clientId);
      keys, removed := DropKeys(s.keys, clientId);
      Departure(sessions, hooks.events, webhookUrl != "", now, docId, clientId, S.Session(clients, keys));
      if found && |clients| == 0 {
        sessions := sessions - {docId};
        if webhookUrl != "" {
          hooks.Add(Webhooks.Event(Webhooks.IDLE_SESSION, docId, now + Webhooks.IDLE_DELAY));
        }
      } else {
        sessions := sessions[docId := S.Session(clients, keys)];
      }
    }

    method RemoveClient(docId: DocId, clientId: ClientId, now: int)
      requires Valid()
      modifies this`sessions, hooks, ClientsOf(docId)`keys
      ensures Valid()
      ensures var after := HubRuns.RemoveClient(old(World(now)), docId, clientId);
              World(now).sessions == after.sessions && World(now).hooks == after.hooks
      ensures forall c :: c in old(ClientsOf(docId)) ==>
                c.keys == if c in ClientsOf(docId)
                          then K.CoalesceAll(old(c.keys), S.Tombstones(old(sessions)[docId].keys, clientId))
                          else old(c.keys)
      ensures forall c :: c in ClientsOf(docId) ==> c in old(ClientsOf(docId))
    {
      if docId in sessions {
        var clients, removed := TakeOut(docId, clientId, now);
        if |removed| > 0 {
          NotifyAll(clients, removed);
        }
      }
    }

    method NotifyAll(clients: seq<Client>, batch: seq<Key>)
      requires Distinct(clients)
      modifies clients`keys
      ensures forall c :: c in clients ==> c.keys == K.CoalesceAll(old(c.keys), batch)
    {
      for i := 0 to |clients|
        invariant forall j :: 0 <= j < |clients| ==>
                    clients[j].keys == if j < i then K.CoalesceAll(old(clients[j].keys), batch) else old(clients[j].keys)
      {
        clients[i].NotifyKeysUpdated(batch);
      }
    }

    method Append(docId: DocId, source: ClientId, offset: nat, data: Bytes)
      requires Valid()
      modifies ClientsOf(docId)`lastEnd, ClientsOf(docId)`queued
      ensures forall c :: c in ClientsOf(docId) ==>
                c.Conn() == if c.id == source then old(c.Conn()) else P.EnqueueAppend(old(c.Conn()), data, offset)
    {
      var clients := ClientsOf(docId);
      for i := 0 to |clients|
        invariant forall j :: 0 <= j < |clients| ==>
                    clients[j].Conn() == if j < i && clients[j].id != source
                                         then P.EnqueueAppend(old(clients[j].Conn()), data, offset)
                                         else old(clients[j].Conn())
      {
        if clients[i].id != source {
          clients[i].EnqueueAppend(data, offset);
        }
      }
    }

    /** Tell the clients of a document, except one, about a batch of updates. */
    method NotifyOthers(docId: DocId, source: ClientId, batch: seq<Key>)
      requires Valid()
      modifies ClientsOf(docId)`keys
      ensures forall c :: c in ClientsOf(docId) ==>
                c.keys == if c.id == source then old(c.keys) else K.CoalesceAll(old(c.keys), batch)
    {
      var clients := ClientsOf(docId);
      for i := 0 to |clients|
        invariant forall j :: 0 <= j < |clients| ==>
                    clients[j].keys == if j < i && clients[j].id != source
                                       then K.CoalesceAll(old(clients[j].keys), batch)
                                       else old(clients[j].keys)
      {
        if clients[i].id != source {
          clients[i].NotifyKeysUpdated(batch);
        }
      }
    }

    method SetSessionKey(docId: DocId, source: ClientId, key: Key)
      requires Valid()
      modifies ClientsOf(docId)`keys
      ensures forall c :: c in ClientsOf(docId) ==>
                c.keys == if c.id == source then old(c.keys) else K.CoalesceAll(old(c.keys), [key])
    {
      NotifyOthers(docId, source, [key]);
    }

    method SetClientKey(docId: DocId, source: ClientId, oldVersion: int, key: Key) returns (found: bool)
      requires Valid()
      modifies this`sessions, ClientsOf(docId)`keys
      ensures Valid()
      ensures docId !in old(sessions) ==> !found && sessions == old(sessions)
      ensures docId in old(sessions) ==>
                var s := old(sessions)[docId];
                var (keys, ok) := S.SetKey(s.keys, oldVersion, S.ClientKey(key, source));
                && found == ok && sessions == old(sessions)[docId := s.(keys := keys)]
                && forall c :: c in s.clients ==>
                     c.keys == if found && c.id != source then K.CoalesceAll(old(c.keys), [key]) else old(c.keys)
    {
      found := false;
      if docId in sessions {
        var s, newKey, i := sessions[docId], S.ClientKey(key, source), 0;
        while i < |s.keys| && s.keys[i].key.name != key.name
          invariant 0 <= i <= |s.keys| && forall j :: 0 <= j < i ==> s.keys[j].key.name != key.name
        {
          i := i + 1;
        }
        if i < |s.keys| {
          found := true;
          if s.keys[i].key.version == oldVersion {
            sessions := sessions[docId := s.(keys := s.keys[i := newKey])];
          } else {
            assert sessions == sessions[docId := s];
            return false;
          }
        }
        if !found && oldVersion == 0 {
          sessions := sessions[docId := s.(keys := s.keys + [newKey])];
          found := true;
        }
        assert !found ==> sessions == sessions[docId := s];
        if found {
          NotifyOthers(docId, source, [key]);
        }
      }
    }

    /** Without a session the closure panics. */
    method GetClientKeys(docId: DocId) returns (keys: seq<Key>, panic: bool)
      ensures panic <==> docId !in sessions
      ensures keys == if panic then [] else KeyRuns.KeysOf(sessions[docId].keys)
    {
      keys, panic := [], docId !in sessions;
      if panic {
        return;
      }
      var list := sessions[docId].keys;
      for i := 0 to |list|
        invariant |keys| == i && forall j :: 0 <= j < i ==> keys[j] == list[j].key
      {
        keys := keys + [list[i].key];
      }
    }

    method CheckMissedUpdate(docId: DocId, doc: Bytes, keys: seq<Key>)
      requires Valid()
      modifies ClientsOf(docId)`lastEnd, ClientsOf(docId)`queued, ClientsOf(docId)`keys
      ensures forall c :: c in ClientsOf(docId) ==>
                && c.Conn() == (if doc == [] then old(c.Conn()) else P.EnqueueAppend(old(c.Conn()), doc, 0))
                && c.keys == K.CoalesceAll(old(c.keys), keys)
    {
      var clients := ClientsOf(docId);
      for i := 0 to |clients|
        invariant forall j :: 0 <= j < i ==>
                    && clients[j].Conn() == (if doc == [] then old(clients[j].Conn())
                                             else P.EnqueueAppend(old(clients[j].Conn()), doc, 0))
                    && clients[j].keys == K.CoalesceAll(old(clients[j].keys), keys)
        invariant forall j :: i <= j < |clients| ==>
                    clients[j].Conn() == old(clients[j].Conn()) && clients[j].keys == old(clients[j].keys)
      {
        clients[i].CatchUp(doc, keys);
      }
    }
  }
}
