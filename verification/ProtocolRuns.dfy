/** Whole runs of any number of clients editing one document. */
module ProtocolRuns {
  import opened Base
  import opened Protocol

  datatype Closure = Register(id: ClientId) | Unregister(id: ClientId) | Deliver(post: Post)

  /** A connection that is over leaves the copy its user may resume from. */
  datatype Peer =
    | Online(conn: Conn, remote: Remote, uplink: seq<Request>)
    | Offline(copy: Bytes)

  /** The hub's channel is a FIFO of closures. */
  datatype System = System(doc: Option<Bytes>, hub: seq<Closure>, members: set<ClientId>, peers: map<ClientId, Peer>)

  /**
   A step handles one message or one hub closure.  Reading the document and asking to be registered
   is one step, and so is appending to the document, answering and asking the hub to pass it on.
   */
  datatype Step =
    | Connect(id: ClientId, from: Option<ClientId>, mode: nat, initial: Bytes, canWrite: bool)
    | Send(id: ClientId, data: Bytes)
    | Handle(id: ClientId)
    | HubRun
    | Arrive(id: ClientId)
    | Disconnect(id: ClientId)
    | SetPermission(id: ClientId, canWrite: bool)

  function Start(doc: Option<Bytes>): System { System(doc, [], {}, map[]) }

  function Contents(s: System): Bytes { if s.doc.Some? then s.doc.value else [] }

  predicate IsOnline(s: System, id: ClientId) { id in s.peers && s.peers[id].Online? }

  /** The copy a new connection starts from: nothing, or what an earlier connection had. */
  function Local(s: System, from: Option<ClientId>): Bytes
    requires from.Some? ==> from.value in s.peers && s.peers[from.value].Offline?
  {
    if from.Some? then s.peers[from.value].copy else []
  }

  predicate Enabled(s: System, step: Step) {
    match step
    case Connect(id, from, _, _, _) =>
      && id !in s.peers
      && (from.Some? ==> from.value in s.peers && s.peers[from.value].Offline?)
      && |Local(s, from)| < TWO63  // as every Go slice
    case Send(id, _) => IsOnline(s, id)
    case Handle(id) => IsOnline(s, id) && s.peers[id].uplink != []
    case HubRun => s.hub != []
    case Arrive(id) => IsOnline(s, id) && s.peers[id].conn.queue != []
    case Disconnect(id) => IsOnline(s, id)
    case SetPermission(id, _) => IsOnline(s, id)
  }

  function Apply(s: System, step: Step): System
    requires Enabled(s, step)
  {
    match step
    case Connect(id, from, mode, initial, canWrite) =>
      var local := Local(s, from);
      var (doc', outcome) := InitReply(s.doc, mode, initial, |local|, ERROR_DOES_NOT_EXIST);
      if outcome.Welcome? then
        var copy := if s.doc.None? then initial else local;
        System(doc', s.hub + [Register(id)], s.members,
               s.peers[id := Newcomer(copy, outcome.data, outcome.offset, canWrite)])
      else s.(doc := doc')
    case Send(id, data) =>
      var p := s.peers[id];
      var remote := SendAppend(p.remote, data);
      s.(peers := s.peers[id := p.(remote := remote, uplink := p.uplink + [Request(p.remote.offset, data)])])
    case Handle(id) =>
      var p := s.peers[id];
      var (doc', conn, post) := HandleAppend(s.doc, p.conn, id, p.uplink[0].offset, p.uplink[0].data);
      s.(doc := doc', hub := if post.Some? then s.hub + [Deliver(post.value)] else s.hub,
         peers := s.peers[id := p.(conn := conn, uplink := p.uplink[1..])])
    case HubRun =>
      var s' := s.(hub := s.hub[1..]);
      (match s.hub[0]
       case Register(id) => s'.(members := s.members + {id})
       case Unregister(id) => s'.(members := s.members - {id})
       case Deliver(post) =>
         s'.(peers := map id | id in s.peers :: Offer(s.peers[id], id in s.members && id != post.source, post)))
    case Arrive(id) =>
      var p := s.peers[id];
      s.(peers := s.peers[id := p.(conn := p.conn.(queue := p.conn.queue[1..]),
                                   remote := Receive(p.remote, p.conn.queue[0]))])
    case Disconnect(id) =>
      s.(hub := s.hub + [Unregister(id)], peers := s.peers[id := Offline(s.peers[id].remote.replica)])
    case SetPermission(id, canWrite) =>
      var p := s.peers[id];
      s.(peers := s.peers[id := p.(conn := p.conn.(canWrite := canWrite))])
  }

  function Offer(p: Peer, recipient: bool, post: Post): Peer {
    if p.Online? && recipient then p.(conn := EnqueueAppend(p.conn, post.data, post.offset)) else p
  }

  ghost predicate ValidRun(s: System, steps: seq<Step>)
    decreases |steps|
  {
    steps == [] || (Enabled(s, steps[0]) && ValidRun(Apply(s, steps[0]), steps[1..]))
  }

  ghost function Run(s: System, steps: seq<Step>): System
    requires ValidRun(s, steps)
    decreases |steps|
  {
    if steps == [] then s else Run(Apply(s, steps[0]), steps[1..])
  }

  // ----- What is still on its way to a client -------------------------------------------

  /** The appends of others that the hub will offer to `id`: those behind its registration. */
  function Pending(hub: seq<Closure>, id: ClientId, member: bool): seq<Post>
    decreases |hub|
  {
    if hub == [] then []
    else
      match hub[0]
      case Register(other) => Pending(hub[1..], id, member || other == id)
      case Unregister(_) => Pending(hub[1..], id, member)
      case Deliver(post) =>
        (if member && post.source != id then [post] else []) + Pending(hub[1..], id, member)
  }

  /** The copy of client `id` once the hub has run dry and everything queued for it has arrived. */
  function Eventually(s: System, id: ClientId): Bytes
    requires IsOnline(s, id)
  {
    var p := s.peers[id];
    ReceiveAll(p.remote, OfferAll(p.conn, Pending(s.hub, id, id in s.members)).queue).replica
  }

  /**
   Offered in order to a client that has been given the first `end` bytes, the posts carry it
   exactly to the end of the document.  A post below `end` is dropped, and lies below it whole.
   */
  predicate Chain(end: nat, posts: seq<Post>, doc: Bytes)
    decreases |posts|
  {
    if posts == [] then end == |doc|
    else
      var p := posts[0];
      if p.offset < end then p.offset + |p.data| <= end && Chain(end, posts[1..], doc)
      else
        && p.offset == end
        && end + |p.data| <= |doc|
        && doc[end..end + |p.data|] == p.data
        && Chain(end + |p.data|, posts[1..], doc)
  }

  ghost predicate Joined(hub: seq<Closure>, id: ClientId, member: bool) { member || Register(id) in hub }

  /** What holds of every connected client, given the appends the hub will still offer it. */
  predicate PeerInv(doc: Bytes, pending: seq<Post>, p: Peer)
    requires p.Online?
  {
    && p.conn.lastEnd <= |doc|
    && ReceiveAll(p.remote, p.conn.queue).replica == doc[..p.conn.lastEnd]
    && p.remote.offset == |p.remote.replica|
    && Fits(p.remote, p.conn.queue)
    && |p.uplink| <= |p.remote.awaiting|
    && Replies(p.conn.queue) == |p.remote.awaiting| - |p.uplink|
    && p.remote.awaiting[Replies(p.conn.queue)..] == p.uplink
    && (forall i :: 0 <= i < |p.uplink| ==> p.uplink[i].offset <= |p.remote.replica|)
    && RejectedBelow(p.remote, p.conn.queue, |doc|)
    && Chain(p.conn.lastEnd, pending, doc)
  }

  ghost predicate Bookkeeping(s: System) {
    && (forall id :: Register(id) in s.hub ==> id in s.peers)
    && (forall id :: id in s.members ==> id in s.peers)
    && (forall id :: Unregister(id) in s.hub ==> id in s.peers && s.peers[id].Offline?)
    && (forall id | id in s.peers && s.peers[id].Offline? :: s.peers[id].copy <= Contents(s))
  }

  ghost predicate Inv(s: System) {
    && Bookkeeping(s)
    && (forall id | IsOnline(s, id) ::
          && s.doc.Some?
          && Joined(s.hub, id, id in s.members)
          && PeerInv(s.doc.value, Pending(s.hub, id, id in s.members), s.peers[id]))
  }

  // ----- Chains -------------------------------------------------------------------------

  lemma {:induction false} PendingSnoc(hub: seq<Closure>, id: ClientId, member: bool, c: Closure)
    ensures Pending(hub + [c], id, member) ==
            if c.Deliver? && Joined(hub, id, member) && c.post.source != id
            then Pending(hub, id, member) + [c.post]
            else Pending(hub, id, member)
    decreases |hub|
  {
    if hub == [] {
      assert hub + [c] == [c];
    } else {
      assert (hub + [c])[1..] == hub[1..] + [c];
      assert hub == [hub[0]] + hub[1..];
      PendingSnoc(hub[1..], id, member || hub[0] == Register(id), c);
    }
  }

  /** Somebody else's append at the end of the document prolongs every chain. */
  lemma {:induction false} ChainGrows(end: nat, posts: seq<Post>, doc: Bytes, post: Post)
    requires Chain(end, posts, doc) && post.offset == |doc|
    ensures Chain(end, posts + [post], doc + post.data)
    decreases |posts|
  {
    if posts == [] {
      assert posts + [post] == [post];
      assert (doc + post.data)[end..end + |post.data|] == post.data;
    } else {
      assert (posts + [post])[1..] == posts[1..] + [post];
      var p := posts[0];
      if p.offset < end {
        ChainGrows(end, posts[1..], doc, post);
      } else {
        assert (doc + post.data)[end..end + |p.data|] == doc[end..end + |p.data|];
        ChainGrows(end + |p.data|, posts[1..], doc, post);
      }
    }
  }

  /** A client that already has everything may move on to its own append: no pending post matters. */
  lemma {:induction false} ChainSkips(posts: seq<Post>, doc: Bytes, data: Bytes)
    requires Chain(|doc|, posts, doc)
    ensures Chain(|doc| + |data|, posts, doc + data)
    decreases |posts|
  {
    if posts != [] {
      var p := posts[0];
      ChainSkips(posts[1..], doc, data);
      if p.offset >= |doc| + |data| {
        assert (doc + data)[|doc|..|doc|] == p.data;
      }
    }
  }

  lemma {:induction false} ChainBound(end: nat, posts: seq<Post>, doc: Bytes)
    requires Chain(end, posts, doc)
    ensures end <= |doc|
    decreases |posts|
  {
    if posts != [] {
      ChainBound(if posts[0].offset < end then end else end + |posts[0].data|, posts[1..], doc);
    }
  }

  // ----- What each event does to one client ---------------------------------------------

  lemma {:induction false} MessageQueued(p: Peer, m: Message)
    requires p.Online?
    ensures ReceiveAll(p.remote, p.conn.queue + [m]) == Receive(ReceiveAll(p.remote, p.conn.queue), m)
    ensures Replies(p.conn.queue + [m]) == Replies(p.conn.queue) + if m.AckNackMsg? then 1 else 0
    ensures Fits(p.remote, p.conn.queue + [m]) ==
            (Fits(p.remote, p.conn.queue) && FitsOne(ReceiveAll(p.remote, p.conn.queue), m))
  {
    ReceiveAllSnoc(p.remote, p.conn.queue, m);
    RepliesSnoc(p.conn.queue, m);
    FitsSnoc(p.remote, p.conn.queue, m);
  }

  /** The snapshot sent on joining. */
  function Newcomer(copy: Bytes, data: Bytes, offset: nat, canWrite: bool): Peer {
    Online(EnqueueAppend(Conn(0, [], canWrite), data, offset), Remote(copy, |copy|, [], None), [])
  }

  lemma {:induction false} PeerJoins(doc: Bytes, copy: Bytes, canWrite: bool)
    requires copy <= doc
    ensures PeerInv(doc, [], Newcomer(copy, doc[|copy|..], |copy|, canWrite))
  {
    var m := AppendMsg(|copy|, doc[|copy|..]);
    var r := Remote(copy, |copy|, [], None);
    assert [] + [m] == [m] && [m][1..] == [];
    assert ReceiveAll(r, [m]) == Receive(r, m);
    assert copy + doc[|copy|..] == doc;
  }

  /** A client may send at any time, whatever is unanswered: it sends at the end of its copy. */
  lemma {:induction false} PeerSends(doc: Bytes, pending: seq<Post>, p: Peer, data: Bytes)
    requires p.Online? && PeerInv(doc, pending, p)
    ensures PeerInv(doc, pending, p.(remote := SendAppend(p.remote, data), uplink := p.uplink + [Request(p.remote.offset, data)]))
  {
    CopyIgnoresRequest(p.remote, SendAppend(p.remote, data), p.conn.queue, |doc|);
  }

  /** The oldest append on its way is the oldest one without an answer in the queue. */
  lemma {:induction false} OldestIsNext(doc: Bytes, pending: seq<Post>, p: Peer)
    requires p.Online? && PeerInv(doc, pending, p) && p.uplink != []
    ensures var r := ReceiveAll(p.remote, p.conn.queue);
            r.awaiting == p.uplink && p.uplink[0].offset <= |r.replica| == p.conn.lastEnd
  {
    AwaitingAfter(p.remote, p.conn.queue);
    ReceiveAllExtends(p.remote, p.conn.queue);
  }

  /** The server appends what the client sent. */
  lemma {:induction false} PeerAppends(doc: Bytes, pending: seq<Post>, p: Peer)
    requires p.Online? && PeerInv(doc, pending, p) && p.uplink != [] && p.uplink[0].offset == |doc|
    ensures var data := p.uplink[0].data;
            var m := AckNackMsg(ACK, |doc| + |data|);
            PeerInv(doc + data, pending,
                    p.(conn := Enqueue(p.conn, m).(lastEnd := |doc| + |data|), uplink := p.uplink[1..]))
  {
    var data := p.uplink[0].data;
    var m := AckNackMsg(ACK, |doc| + |data|);
    OldestIsNext(doc, pending, p);
    MessageQueued(p, m);
    RejectedAfter(p.remote, p.conn.queue, |doc|, |doc| + |data|);
    RejectedSnoc(p.remote, p.conn.queue, m, |doc| + |data|);
    assert doc[..|doc|] == doc;
    assert (doc + data)[..|doc| + |data|] == doc + data;
    ChainSkips(pending, doc, data);
  }

  /** The server refuses what the client sent: the offset is below the end, or permission is missing. */
  lemma {:induction false} PeerRefused(doc: Bytes, pending: seq<Post>, p: Peer, ack: nat, length: nat)
    requires p.Online? && PeerInv(doc, pending, p) && p.uplink != []
    requires ack == NACK || ack == NO_PERMISSION
    requires ack == NACK ==> p.uplink[0].offset != |doc|
    ensures PeerInv(doc, pending, p.(conn := Enqueue(p.conn, AckNackMsg(ack, length)), uplink := p.uplink[1..]))
  {
    OldestIsNext(doc, pending, p);
    MessageQueued(p, AckNackMsg(ack, length));
    RejectedAfter(p.remote, p.conn.queue, |doc|, |doc|);
    RejectedSnoc(p.remote, p.conn.queue, AckNackMsg(ack, length), |doc|);
  }

  /** Somebody else appended: the post joins what the hub will offer. */
  lemma {:induction false} PeerWatches(doc: Bytes, pending: seq<Post>, p: Peer, post: Post)
    requires p.Online? && PeerInv(doc, pending, p) && post.offset == |doc|
    ensures PeerInv(doc + post.data, pending + [post], p)
  {
    ChainGrows(p.conn.lastEnd, pending, doc, post);
    RejectedAfter(p.remote, p.conn.queue, |doc|, |doc| + |post.data|);
    assert (doc + post.data)[..p.conn.lastEnd] == doc[..p.conn.lastEnd];
  }

  /** The hub offers the oldest pending append. */
  lemma {:induction false} PeerOffered(doc: Bytes, pending: seq<Post>, p: Peer)
    requires p.Online? && PeerInv(doc, pending, p) && pending != []
    ensures PeerInv(doc, pending[1..], p.(conn := EnqueueAppend(p.conn, pending[0].data, pending[0].offset)))
  {
    var post := pending[0];
    if post.offset >= p.conn.lastEnd {
      var m := AppendMsg(post.offset, post.data);
      MessageQueued(p, m);
      RejectedAfter(p.remote, p.conn.queue, |doc|, |doc|);
      RejectedSnoc(p.remote, p.conn.queue, m, |doc|);
      ChainBound(post.offset + |post.data|, pending[1..], doc);
      assert doc[..post.offset] + post.data == doc[..post.offset + |post.data|];
    }
  }

  lemma {:induction false} PeerReceives(doc: Bytes, pending: seq<Post>, p: Peer)
    requires p.Online? && PeerInv(doc, pending, p) && p.conn.queue != []
    ensures PeerInv(doc, pending, p.(conn := p.conn.(queue := p.conn.queue[1..]),
                                     remote := Receive(p.remote, p.conn.queue[0])))
  {
  }

  // ----- Each step keeps the invariant --------------------------------------------------

  lemma {:induction false} NoPendingForStranger(hub: seq<Closure>, id: ClientId)
    requires Register(id) !in hub
    ensures Pending(hub, id, false) == []
    decreases |hub|
  {
    if hub != [] {
      NoPendingForStranger(hub[1..], id);
    }
  }

  /** A closure that is no append joins the hub's queue: nobody else is concerned. */
  lemma {:induction false} HubPostKeepsPeer(s: System, s': System, c: Closure, id: ClientId)
    requires Inv(s) && IsOnline(s, id) && !c.Deliver?
    requires s'.hub == s.hub + [c] && s'.members == s.members && s'.doc == s.doc
    requires id in s'.peers && s'.peers[id] == s.peers[id]
    ensures Joined(s'.hub, id, id in s'.members)
    ensures PeerInv(s.doc.value, Pending(s'.hub, id, id in s'.members), s'.peers[id])
  {
    PendingSnoc(s.hub, id, id in s.members, c);
  }

  /** Connecting changes nothing, or adds a connection that is sent what its copy lacks. */
  lemma {:induction false} ConnectCases(s: System, step: Step) returns (doc: Bytes, copy: Bytes)
    requires step.Connect? && Enabled(s, step) && Local(s, step.from) <= Contents(s)
    ensures var s' := Apply(s, step);
            s' == s ||
            (copy <= doc && (s.doc.Some? ==> s.doc.value == doc)
             && s' == System(Some(doc), s.hub + [Register(step.id)], s.members,
                             s.peers[step.id := Newcomer(copy, doc[|copy|..], |copy|, step.canWrite)]))
  {
    var local := Local(s, step.from);
    copy := if s.doc.None? then step.initial else local;
    doc := if s.doc.None? then step.initial else s.doc.value;
    assert Wrap(|local|) == |local|;
  }

  lemma {:induction false} NewcomerKeepsInv(s: System, s': System, id: ClientId, doc: Bytes, copy: Bytes, canWrite: bool)
    requires Inv(s) && id !in s.peers && copy <= doc && (s.doc.Some? ==> s.doc.value == doc)
    requires s' == System(Some(doc), s.hub + [Register(id)], s.members,
                          s.peers[id := Newcomer(copy, doc[|copy|..], |copy|, canWrite)])
    ensures Inv(s')
  {
    var p := Newcomer(copy, doc[|copy|..], |copy|, canWrite);
    PeerJoins(doc, copy, canWrite);
    NoPendingForStranger(s.hub, id);
    PendingSnoc(s.hub, id, false, Register(id));
    JoinKeepsInv(s, s', id, doc, p);
  }

  lemma {:induction false} ConnectKeepsInv(s: System, step: Step)
    requires Inv(s) && step.Connect? && Enabled(s, step)
    ensures Inv(Apply(s, step))
  {
    var s' := Apply(s, step);
    var doc, copy := ConnectCases(s, step);
    if s' != s {
      NewcomerKeepsInv(s, s', step.id, doc, copy, step.canWrite);
    }
  }

  lemma {:induction false} JoinKeepsInv(s: System, s': System, id: ClientId, doc: Bytes, p: Peer)
    requires Inv(s) && id !in s.peers && p.Online? && (s.doc.Some? ==> s.doc.value == doc)
    requires s' == System(Some(doc), s.hub + [Register(id)], s.members, s.peers[id := p])
    requires PeerInv(doc, Pending(s'.hub, id, false), p)
    ensures Inv(s')
  {
    forall other | IsOnline(s', other)
      ensures Joined(s'.hub, other, other in s'.members)
      ensures PeerInv(s'.doc.value, Pending(s'.hub, other, other in s'.members), s'.peers[other])
    {
      if other != id {
        assert IsOnline(s, other);
        HubPostKeepsPeer(s, s', Register(id), other);
      }
    }
  }

  /** A step that concerns one connection, the document and the hub's queue stay. */
  lemma {:induction false} LocalKeepsInv(s: System, s': System, id: ClientId)
    requires Inv(s) && IsOnline(s, id) && IsOnline(s', id)
    requires s' == s.(peers := s.peers[id := s'.peers[id]])
    requires PeerInv(s.doc.value, Pending(s.hub, id, id in s.members), s'.peers[id])
    ensures Inv(s')
  {
    forall other | IsOnline(s', other)
      ensures Joined(s'.hub, other, other in s'.members)
      ensures PeerInv(s.doc.value, Pending(s'.hub, other, other in s'.members), s'.peers[other])
    {
      assert other != id ==> IsOnline(s, other);
    }
  }

  /** Handling an append of a connected client accepts it whole, or answers and changes nothing else. */
  lemma {:induction false} HandleCases(s: System, id: ClientId)
    requires Enabled(s, Handle(id)) && s.doc.Some?
    ensures var s' := Apply(s, Handle(id));
            var p := s.peers[id];
            var n := |s.doc.value|;
            var request := p.uplink[0];
            if request.offset == n && p.conn.canWrite then
              s' == s.(doc := Some(s.doc.value + request.data),
                       hub := s.hub + [Deliver(Post(id, n, request.data))],
                       peers := s.peers[id := p.(conn := Enqueue(p.conn, AckNackMsg(ACK, n + |request.data|))
                                                           .(lastEnd := n + |request.data|), uplink := p.uplink[1..])])
            else
              var ack := if request.offset == n then NO_PERMISSION else NACK;
              s' == s.(peers := s.peers[id := p.(conn := Enqueue(p.conn, AckNackMsg(ack, n)), uplink := p.uplink[1..])])
  {
    assert s.doc.value + [] == s.doc.value;
  }

  lemma {:induction false} HandleKeepsInv(s: System, id: ClientId)
    requires Inv(s) && Enabled(s, Handle(id))
    ensures Inv(Apply(s, Handle(id)))
  {
    var p := s.peers[id];
    var n := |s.doc.value|;
    var request := p.uplink[0];
    var pending := Pending(s.hub, id, id in s.members);
    HandleCases(s, id);
    if request.offset == n && p.conn.canWrite {
      PeerAppends(s.doc.value, pending, p);
      AppendKeepsInv(s, Apply(s, Handle(id)), id, Post(id, n, request.data));
    } else {
      PeerRefused(s.doc.value, pending, p, if request.offset == n then NO_PERMISSION else NACK, n);
      LocalKeepsInv(s, Apply(s, Handle(id)), id);
    }
  }

  lemma {:induction false} AppendKeepsInv(s: System, s': System, id: ClientId, post: Post)
    requires Inv(s) && IsOnline(s, id) && IsOnline(s', id) && post.source == id && post.offset == |s.doc.value|
    requires s' == s.(doc := Some(s.doc.value + post.data), hub := s.hub + [Deliver(post)],
                      peers := s.peers[id := s'.peers[id]])
    requires PeerInv(s'.doc.value, Pending(s.hub, id, id in s.members), s'.peers[id])
    ensures Inv(s')
  {
    forall other | IsOnline(s', other)
      ensures Joined(s'.hub, other, other in s'.members)
      ensures PeerInv(s'.doc.value, Pending(s'.hub, other, other in s'.members), s'.peers[other])
    {
      PendingSnoc(s.hub, other, other in s.members, Deliver(post));
      if other != id {
        assert IsOnline(s, other);
        PeerWatches(s.doc.value, Pending(s.hub, other, other in s.members), s.peers[other], post);
      }
    }
  }

  /** How the oldest closure and the rest of the queue share what is pending. */
  lemma {:induction false} PendingHead(hub: seq<Closure>, id: ClientId, member: bool)
    requires hub != [] && hub[0] != Unregister(id) && Joined(hub, id, member)
    ensures var member' := member || hub[0] == Register(id);
            Joined(hub[1..], id, member') &&
            if hub[0].Deliver? && member && hub[0].post.source != id
            then Pending(hub, id, member) == [hub[0].post] + Pending(hub[1..], id, true)
            else Pending(hub, id, member) == Pending(hub[1..], id, member')
  {
    assert hub == [hub[0]] + hub[1..];
  }

  lemma {:induction false} HubRunKeepsPeer(s: System, id: ClientId)
    requires Inv(s) && s.hub != [] && IsOnline(s, id)
    ensures var s' := Apply(s, HubRun);
            IsOnline(s', id) && Joined(s'.hub, id, id in s'.members) &&
            PeerInv(s.doc.value, Pending(s'.hub, id, id in s'.members), s'.peers[id])
  {
    var s' := Apply(s, HubRun);
    var member := id in s.members;
    var c := s.hub[0];
    assert c != Unregister(id) && Joined(s.hub, id, member);
    PendingHead(s.hub, id, member);
    assert s'.hub == s.hub[1..] && (id in s'.members) == (member || c == Register(id));
    if c.Deliver? && member && c.post.source != id {
      PeerOffered(s.doc.value, Pending(s.hub, id, member), s.peers[id]);
    }
  }

  lemma {:induction false} HubRunKeepsBookkeeping(s: System)
    requires Bookkeeping(s) && s.hub != []
    ensures Bookkeeping(Apply(s, HubRun))
    ensures forall id :: IsOnline(Apply(s, HubRun), id) ==> IsOnline(s, id)
  {
    var s' := Apply(s, HubRun);
    assert s.hub == [s.hub[0]] + s.hub[1..];
    assert forall c :: c in s'.hub ==> c in s.hub;
    assert s'.peers.Keys == s.peers.Keys;
  }

  lemma {:induction false} HubRunKeepsInv(s: System)
    requires Inv(s) && s.hub != []
    ensures Inv(Apply(s, HubRun))
  {
    HubRunKeepsBookkeeping(s);
    forall id | IsOnline(s, id)
      ensures var s' := Apply(s, HubRun);
              IsOnline(s', id) && Joined(s'.hub, id, id in s'.members) &&
              PeerInv(s.doc.value, Pending(s'.hub, id, id in s'.members), s'.peers[id])
    {
      HubRunKeepsPeer(s, id);
    }
    assert Apply(s, HubRun).doc == s.doc;
  }

  lemma {:induction false} DisconnectKeepsBookkeeping(s: System, step: Step)
    requires Inv(s) && step.Disconnect? && Enabled(s, step)
    ensures Bookkeeping(Apply(s, step))
  {
    CopyIsPrefix(s, step.id);
  }

  lemma {:induction false} DisconnectKeepsInv(s: System, step: Step)
    requires Inv(s) && step.Disconnect? && Enabled(s, step)
    ensures Inv(Apply(s, step))
  {
    var s' := Apply(s, step);
    DisconnectKeepsBookkeeping(s, step);
    forall other | IsOnline(s', other)
      ensures Joined(s'.hub, other, other in s'.members)
      ensures PeerInv(s.doc.value, Pending(s'.hub, other, other in s'.members), s'.peers[other])
    {
      assert IsOnline(s, other);
      HubPostKeepsPeer(s, s', Unregister(step.id), other);
    }
  }

  lemma {:induction false} CopyIsPrefix(s: System, id: ClientId)
    requires Inv(s) && IsOnline(s, id)
    ensures s.peers[id].remote.replica <= s.doc.value
  {
    var p := s.peers[id];
    ReceiveAllExtends(p.remote, p.conn.queue);
  }

  lemma {:induction false} StepKeepsInv(s: System, step: Step)
    requires Inv(s) && Enabled(s, step)
    ensures Inv(Apply(s, step))
  {
    match step
    case Connect(_, _, _, _, _) => ConnectKeepsInv(s, step);
    case Handle(id) => HandleKeepsInv(s, id);
    case HubRun => HubRunKeepsInv(s);
    case Disconnect(_) => DisconnectKeepsInv(s, step);
    case Send(id, data) =>
      PeerSends(s.doc.value, Pending(s.hub, id, id in s.members), s.peers[id], data);
      LocalKeepsInv(s, Apply(s, step), id);
    case Arrive(id) =>
      PeerReceives(s.doc.value, Pending(s.hub, id, id in s.members), s.peers[id]);
      LocalKeepsInv(s, Apply(s, step), id);
    case SetPermission(id, _) =>
      LocalKeepsInv(s, Apply(s, step), id);
  }

  lemma {:induction false} RunKeepsInv(s: System, steps: seq<Step>)
    requires Inv(s) && ValidRun(s, steps)
    ensures Inv(Run(s, steps))
    decreases |steps|
  {
    if steps != [] {
      StepKeepsInv(s, steps[0]);
      RunKeepsInv(Apply(s, steps[0]), steps[1..]);
    }
  }

  // ----- Main results -------------------------------------------------------------------

  /** Offering a chain gives the client exactly what was missing. */
  lemma {:induction false} ChainCompletes(doc: Bytes, pending: seq<Post>, p: Peer)
    requires p.Online? && PeerInv(doc, pending, p)
    ensures ReceiveAll(p.remote, OfferAll(p.conn, pending).queue).replica == doc
    ensures Fits(p.remote, OfferAll(p.conn, pending).queue)
    decreases |pending|
  {
    if pending == [] {
      assert doc[..|doc|] == doc;
    } else {
      PeerOffered(doc, pending, p);
      ChainCompletes(doc, pending[1..], p.(conn := EnqueueAppend(p.conn, pending[0].data, pending[0].offset)));
    }
  }

  /**
   Convergence: after any run, every connected client's copy, followed by everything queued for
   it and everything the hub has still to offer it, is the document; and nothing the client
   receives on the way there leaves a gap or repeats a byte.
   */
  lemma {:induction false} Convergence(doc: Option<Bytes>, steps: seq<Step>, id: ClientId)
    requires ValidRun(Start(doc), steps)
    requires IsOnline(Run(Start(doc), steps), id)
    ensures var s := Run(Start(doc), steps);
            && s.doc.Some?
            && Eventually(s, id) == s.doc.value
            && s.peers[id].remote.replica <= s.doc.value
            && Fits(s.peers[id].remote, OfferAll(s.peers[id].conn, Pending(s.hub, id, id in s.members)).queue)
            && (s.hub == [] && s.peers[id].conn.queue == [] ==> s.peers[id].remote.replica == s.doc.value)
  {
    var s := Run(Start(doc), steps);
    RunKeepsInv(Start(doc), steps);
    CopyIsPrefix(s, id);
    ChainCompletes(s.doc.value, Pending(s.hub, id, id in s.members), s.peers[id]);
  }

  /** The guard on `lastEnd` only ever drops what the client already has or has queued. */
  lemma {:induction false} DropIsHarmless(doc: Option<Bytes>, steps: seq<Step>, id: ClientId)
    requires ValidRun(Start(doc), steps)
    requires var s := Run(Start(doc), steps);
             && IsOnline(s, id) && id in s.members && s.hub != [] && s.hub[0].Deliver?
             && s.hub[0].post.source != id && s.hub[0].post.offset < s.peers[id].conn.lastEnd
    ensures var s := Run(Start(doc), steps);
            var p := s.peers[id];
            && s.hub[0].post.offset + |s.hub[0].post.data| <= p.conn.lastEnd
            && s.doc.Some? && p.conn.lastEnd <= |s.doc.value|
            && ReceiveAll(p.remote, p.conn.queue).replica == s.doc.value[..p.conn.lastEnd]
  {
    RunKeepsInv(Start(doc), steps);
  }

  /** Once everything has arrived, the copy reaches beyond whatever was rejected. */
  lemma {:induction false} ChainOutgrowsRejection(doc: Bytes, pending: seq<Post>, p: Peer)
    requires p.Online? && PeerInv(doc, pending, p)
    ensures RejectedBelow(ReceiveAll(p.remote, OfferAll(p.conn, pending).queue), [], |doc|)
    decreases |pending|
  {
    if pending == [] {
      RejectedAfter(p.remote, p.conn.queue, |doc|, |doc|);
    } else {
      PeerOffered(doc, pending, p);
      ChainOutgrowsRejection(doc, pending[1..], p.(conn := EnqueueAppend(p.conn, pending[0].data, pending[0].offset)));
    }
  }

  /**
   A refused client never waits in vain: when what is queued for it and what the hub has for it
   has arrived, its copy is longer than the offset that was refused, and it may send again.
   */
  lemma {:induction false} NackedClientNeverWaitsInVain(doc: Option<Bytes>, steps: seq<Step>, id: ClientId)
    requires ValidRun(Start(doc), steps)
    requires IsOnline(Run(Start(doc), steps), id)
    ensures var s := Run(Start(doc), steps);
            var p := s.peers[id];
            var r := ReceiveAll(p.remote, OfferAll(p.conn, Pending(s.hub, id, id in s.members)).queue);
            && (p.remote.rejectedAt.Some? ==> |r.replica| > p.remote.rejectedAt.value)
            && MaySend(r)
  {
    var s := Run(Start(doc), steps);
    RunKeepsInv(Start(doc), steps);
    ChainCompletes(s.doc.value, Pending(s.hub, id, id in s.members), s.peers[id]);
    ChainOutgrowsRejection(s.doc.value, Pending(s.hub, id, id in s.members), s.peers[id]);
  }

  /**
   Whoever connects in any run, anew or with the copy of an earlier connection, is refused only if the
   document had to be new or had to exist; otherwise the copy and the first message make up the document.
   */
  lemma {:induction false} ConnectSucceedsIff(doc: Option<Bytes>, steps: seq<Step>, step: Step)
    requires ValidRun(Start(doc), steps) && step.Connect? && Enabled(Run(Start(doc), steps), step)
    ensures var s := Run(Start(doc), steps); var s' := Apply(s, step);
            && (IsOnline(s', step.id) <==> step.mode != if s.doc.Some? then 2 else 1)
            && (IsOnline(s', step.id) ==>
                  var p, copy := s'.peers[step.id], if s.doc.Some? then Local(s, step.from) else step.initial;
                  && s'.doc == Some(if s.doc.Some? then s.doc.value else step.initial)
                  && p.remote.replica == copy <= s'.doc.value
                  && p.conn.queue == [AppendMsg(|copy|, s'.doc.value[|copy|..])]
                  && p.conn.canWrite == step.canWrite && s'.hub == s.hub + [Register(step.id)])
            && (!IsOnline(s', step.id) ==> s' == s)
  {
    RunKeepsInv(Start(doc), steps);
    var s := Run(Start(doc), steps);
    var local := Local(s, step.from);
    assert local <= Contents(s);
    assert Wrap(|local|) == |local|;
    OpeningEnds(s.doc, step.mode, step.initial, |local|, ERROR_DOES_NOT_EXIST);
  }

  /** The client program's own offset variable is always the length of its copy. */
  lemma {:induction false} ClientOffsetIsCopyLength(doc: Option<Bytes>, steps: seq<Step>, id: ClientId)
    requires ValidRun(Start(doc), steps)
    requires IsOnline(Run(Start(doc), steps), id)
    ensures var r := Run(Start(doc), steps).peers[id].remote; r.offset == |r.replica|
  {
    RunKeepsInv(Start(doc), steps);
  }
}
