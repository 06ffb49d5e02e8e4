/**
 The append protocol, one message at a time: what the server does to a connection and to the
 document, and what a remote client does with the messages it receives.
 */
module Protocol {
  import opened Base
  import Store

  const NACK: nat := 0
  const ACK: nat := 1
  const NO_PERMISSION: nat := 2

  const ERROR_DOES_NOT_EXIST: nat := 1
  const ERROR_ALREADY_EXISTS: nat := 2
  const ERROR_INVALID_OFFSET: nat := 3
  const ERROR_ACCESS_DENIED: nat := 4

  /** What the server queues for one connection, before encoding. */
  datatype Message =
    | AppendMsg(offset: nat, data: Bytes)
    | AckNackMsg(ack: nat, length: nat)
    | ErrorMsg(code: nat)
    | BroadcastMsg(payload: Bytes)
    | SetKeyAckNackMsg(ok: bool, requestId: nat)

  /** The server's side of a connection. */
  datatype Conn = Conn(lastEnd: nat, queue: seq<Message>, canWrite: bool)

  function Enqueue(c: Conn, m: Message): Conn {
    c.(queue := c.queue + [m])
  }

  /** Offer the client a range of the document; ranges starting below `lastEnd` are dropped. */
  function EnqueueAppend(c: Conn, data: Bytes, offset: nat): Conn {
    if offset < c.lastEnd then c
    else Enqueue(c, AppendMsg(offset, data)).(lastEnd := offset + |data|)
  }

  function OfferAll(c: Conn, posts: seq<Post>): Conn
    decreases |posts|
  {
    if posts == [] then c else OfferAll(EnqueueAppend(c, posts[0].data, posts[0].offset), posts[1..])
  }

  /** How the handling of an init message ends, once permissions are settled. */
  datatype InitOutcome = Refused(code: nat) | Welcome(offset: nat, data: Bytes) | Panic

  function InitReply(doc: Option<Bytes>, mode: nat, initial: Bytes, claimed: nat, codeOnMissing: nat)
    : (Option<Bytes>, InitOutcome)
  {
    var (doc', r) := Store.GetDocument(doc, mode, initial);
    (doc', InitAnswer(r, claimed, codeOnMissing))
  }

  /** What the handler makes of the database's answer. */
  function InitAnswer(r: Store.GetResult, claimed: nat, codeOnMissing: nat): InitOutcome {
    match r
    case GetFailed(e) => Refused(if e == Store.ErrExists then ERROR_ALREADY_EXISTS else codeOnMissing)
    case Got(contents, created) =>
      var offset := if created then |contents| else Wrap(claimed);
      if |contents| < offset then Refused(ERROR_INVALID_OFFSET)
      else if offset < 0 then Panic
      else Welcome(offset, contents[offset..])
  }

  /** Exactly when an init message makes the handler panic: the document exists and the offset does not fit a Go int. */
  lemma {:induction false} InitPanicsIff(doc: Option<Bytes>, mode: nat, initial: Bytes, claimed: nat, codeOnMissing: nat)
    requires claimed < TWO64
    ensures InitReply(doc, mode, initial, claimed, codeOnMissing).1.Panic? <==>
            doc.Some? && mode != Store.ALWAYS_CREATE && claimed >= TWO63
  {
    assert claimed % TWO64 == claimed;
  }

  /**
   How an init message ends, by creation mode (0 possibly, 1 never, 2 always create): a document that
   exists is welcomed with all that lies behind the offset, if it reaches so far, unless it had to be
   new; a missing one is created and needs nothing more, unless it had to exist.
   */
  lemma {:induction false} OpeningEnds(doc: Option<Bytes>, mode: nat, initial: Bytes, claimed: nat, codeOnMissing: nat)
    requires claimed < TWO64
    ensures var (after, outcome) := InitReply(doc, mode, initial, claimed, codeOnMissing);
            match doc
            case None =>
              if mode == 1 then after == None && outcome == Refused(codeOnMissing)
              else after == Some(initial) && outcome == Welcome(|initial|, [])
            case Some(d) =>
              && after == Some(d)
              && (outcome == Refused(2) <==> mode == 2)
              && (outcome == Refused(3) <==> mode != 2 && |d| < claimed < TWO63)
              && (outcome == Panic <==> mode != 2 && TWO63 <= claimed)
              && (outcome.Welcome? <==> mode != 2 && claimed <= |d| && claimed < TWO63)
              && (outcome.Welcome? ==> outcome.offset == claimed && d[..claimed] + outcome.data == d)
  {
    assert claimed % TWO64 == claimed;
  }

  /** An append by `source` that the hub must still pass on to the other clients. */
  datatype Post = Post(source: ClientId, offset: nat, data: Bytes)

  /** The new document, the connection after the reply, and the post for the hub, if any. */
  function HandleAppend(doc: Option<Bytes>, c: Conn, id: ClientId, offset: nat, data: Bytes)
    : (Option<Bytes>, Conn, Option<Post>)
  {
    var payload := if c.canWrite then data else [];
    var (doc', r) := Store.AppendDocument(doc, offset, payload);
    match r
    case Appended(n) =>
      if c.canWrite then
        (doc', Enqueue(c, AckNackMsg(ACK, n)).(lastEnd := n), Some(Post(id, offset, payload)))
      else
        (doc', Enqueue(c, AckNackMsg(NO_PERMISSION, n)), None)
    case AppendFailed(e, n) =>
      if e == Store.ErrConflict then (doc', Enqueue(c, AckNackMsg(NACK, n)), None)
      else (doc', Enqueue(c, ErrorMsg(ERROR_DOES_NOT_EXIST)), None)
  }

  /**
   Every append is answered once, and by what happened: an acknowledgement (1) means that the data
   stands at its offset at the end of the document; anything else that nothing was written and nobody
   will be told, because the offset is not the end (0), writing is not permitted (2), or there is no
   document.
   */
  lemma {:induction false} AppendIsAnswered(doc: Option<Bytes>, c: Conn, id: ClientId, offset: nat, data: Bytes)
    ensures var (after, c', post) := HandleAppend(doc, c, id, offset, data);
            && |c'.queue| == |c.queue| + 1 && c'.queue[..|c.queue|] == c.queue && c'.canWrite == c.canWrite
            && var answer, fits := c'.queue[|c.queue|], doc.Some? && |doc.value| == offset;
               if fits && c.canWrite then
                 && answer == AckNackMsg(1, offset + |data|) && c'.lastEnd == offset + |data|
                 && after.Some? && after.value[..offset] == doc.value && after.value[offset..] == data
                 && post == Some(Post(id, offset, data))
               else
                 && after == doc && post.None? && c'.lastEnd == c.lastEnd
                 && answer == if doc.None? then ErrorMsg(1) else AckNackMsg(if fits then 2 else 0, |doc.value|)
  {
    assert doc.Some? ==> doc.value + [] == doc.value;
  }

  // ----- The remote client --------------------------------------------------------------

  datatype Request = Request(offset: nat, data: Bytes)

  /**
   A client program: its copy of the document, the offset it will send at, the appends it has
   sent and not seen answered, and the offset of its last rejected append.
   */
  datatype Remote = Remote(replica: Bytes, offset: nat, awaiting: seq<Request>, rejectedAt: Option<nat>)

  /**
   An append that does not start at the end of the copy cannot be placed and is ignored.  An
   answer is about the oldest append that is not answered.
   */
  function Receive(r: Remote, m: Message): Remote {
    match m
    case AppendMsg(offset, data) =>
      if offset == |r.replica| then r.(replica := r.replica + data, offset := offset + |data|)
      else r.(offset := offset + |data|)
    case AckNackMsg(ack, length) =>
      if r.awaiting == [] then r
      else
        var request, rest := r.awaiting[0], r.awaiting[1..];
        if ack == ACK then r.(replica := r.replica + request.data, offset := length, awaiting := rest)
        else if ack == NACK then r.(awaiting := rest, rejectedAt := Some(request.offset))
        else r.(awaiting := rest)
    case _ => r
  }

  /** After a rejection a client has reason to send again once something new has arrived. */
  predicate MaySend(r: Remote) { r.rejectedAt.Some? ==> |r.replica| > r.rejectedAt.value }

  function SendAppend(r: Remote, data: Bytes): Remote {
    r.(awaiting := r.awaiting + [Request(r.offset, data)], rejectedAt := None)
  }

  function ReceiveAll(r: Remote, queue: seq<Message>): Remote
    decreases |queue|
  {
    if queue == [] then r else ReceiveAll(Receive(r, queue[0]), queue[1..])
  }

  lemma {:induction false} ReceiveAllSnoc(r: Remote, queue: seq<Message>, m: Message)
    ensures ReceiveAll(r, queue + [m]) == Receive(ReceiveAll(r, queue), m)
    decreases |queue|
  {
    if queue == [] {
      assert [m][1..] == [] && (queue + [m]) == [m];
    } else {
      assert (queue + [m])[1..] == queue[1..] + [m];
      ReceiveAllSnoc(Receive(r, queue[0]), queue[1..], m);
    }
  }

  /** Receiving only ever extends a copy. */
  lemma {:induction false} ReceiveAllExtends(r: Remote, queue: seq<Message>)
    ensures r.replica <= ReceiveAll(r, queue).replica
    decreases |queue|
  {
    if queue != [] {
      ReceiveAllExtends(Receive(r, queue[0]), queue[1..]);
    }
  }

  /** The number of answers to appends in a queue. */
  function Replies(queue: seq<Message>): nat
    decreases |queue|
  {
    if queue == [] then 0 else (if queue[0].AckNackMsg? then 1 else 0) + Replies(queue[1..])
  }

  lemma {:induction false} RepliesSnoc(queue: seq<Message>, m: Message)
    ensures Replies(queue + [m]) == Replies(queue) + if m.AckNackMsg? then 1 else 0
    decreases |queue|
  {
    if queue == [] {
      assert queue + [m] == [m];
    } else {
      assert (queue + [m])[1..] == queue[1..] + [m];
      RepliesSnoc(queue[1..], m);
    }
  }

  /** The message continues the copy exactly: no gap and no overlap. */
  predicate FitsOne(r: Remote, m: Message) {
    match m
    case AppendMsg(offset, data) => offset == |r.replica|
    case AckNackMsg(ack, length) =>
      ack == ACK && r.awaiting != [] ==> length == |r.replica| + |r.awaiting[0].data|
    case _ => true
  }

  /** Every message of the queue continues the copy it will find. */
  predicate Fits(r: Remote, queue: seq<Message>)
    decreases |queue|
  {
    queue == [] || (FitsOne(r, queue[0]) && Fits(Receive(r, queue[0]), queue[1..]))
  }

  lemma {:induction false} FitsSnoc(r: Remote, queue: seq<Message>, m: Message)
    ensures Fits(r, queue + [m]) == (Fits(r, queue) && FitsOne(ReceiveAll(r, queue), m))
    decreases |queue|
  {
    if queue == [] {
      assert queue + [m] == [m];
      assert [m][1..] == [];
    } else {
      assert (queue + [m])[1..] == queue[1..] + [m];
      FitsSnoc(Receive(r, queue[0]), queue[1..], m);
    }
  }

  /** While everything fits, the offset the client program keeps is the length of its copy. */
  lemma {:induction false} OffsetIsLength(r: Remote, queue: seq<Message>)
    requires Fits(r, queue) && r.offset == |r.replica|
    ensures ReceiveAll(r, queue).offset == |ReceiveAll(r, queue).replica|
    decreases |queue|
  {
    if queue != [] {
      OffsetIsLength(Receive(r, queue[0]), queue[1..]);
    }
  }

  /** Every answer in the queue is about one append, in the order they were sent. */
  lemma {:induction false} AwaitingAfter(r: Remote, queue: seq<Message>)
    requires Replies(queue) <= |r.awaiting|
    ensures ReceiveAll(r, queue).awaiting == r.awaiting[Replies(queue)..]
    decreases |queue|
  {
    if queue != [] {
      AwaitingAfter(Receive(r, queue[0]), queue[1..]);
    }
  }

  /** Whatever was or will turn out to be rejected was sent below `n`. */
  predicate RejectedBelow(r: Remote, queue: seq<Message>, n: nat)
    decreases |queue|
  {
    && (r.rejectedAt.Some? ==> r.rejectedAt.value < n)
    && (queue != [] ==> RejectedBelow(Receive(r, queue[0]), queue[1..], n))
  }

  lemma {:induction false} RejectedSnoc(r: Remote, queue: seq<Message>, m: Message, n: nat)
    requires RejectedBelow(r, queue, n)
    requires RejectedBelow(Receive(ReceiveAll(r, queue), m), [], n)
    ensures RejectedBelow(r, queue + [m], n)
    decreases |queue|
  {
    if queue == [] {
      assert queue + [m] == [m] && [m][1..] == [];
    } else {
      assert (queue + [m])[1..] == queue[1..] + [m];
      RejectedSnoc(Receive(r, queue[0]), queue[1..], m, n);
    }
  }

  lemma {:induction false} RejectedAfter(r: Remote, queue: seq<Message>, n: nat, n': nat)
    requires RejectedBelow(r, queue, n) && n <= n'
    ensures RejectedBelow(ReceiveAll(r, queue), [], n) && RejectedBelow(r, queue, n')
    decreases |queue|
  {
    if queue != [] {
      RejectedAfter(Receive(r, queue[0]), queue[1..], n, n');
    }
  }

  /** An append sent meanwhile plays no part in what the answers to earlier ones do. */
  lemma {:induction false} CopyIgnoresRequest(r: Remote, r': Remote, queue: seq<Message>, n: nat)
    requires Replies(queue) <= |r.awaiting| && r.awaiting <= r'.awaiting
    requires r.replica == r'.replica && r.offset == r'.offset
    requires r'.rejectedAt == r.rejectedAt || r'.rejectedAt.None?
    ensures ReceiveAll(r, queue).replica == ReceiveAll(r', queue).replica
    ensures Fits(r, queue) == Fits(r', queue)
    ensures RejectedBelow(r, queue, n) ==> RejectedBelow(r', queue, n)
    decreases |queue|
  {
    if queue != [] {
      CopyIgnoresRequest(Receive(r, queue[0]), Receive(r', queue[0]), queue[1..], n);
    }
  }

  // ----- The order of the offers --------------------------------------------------------

  predicate Disjoint(a: Post, b: Post) {
    a.offset + |a.data| <= b.offset || b.offset + |b.data| <= a.offset
  }

  lemma {:induction false} OfferAllQueueLength(c: Conn, posts: seq<Post>)
    ensures |c.queue| <= |OfferAll(c, posts).queue| <= |c.queue| + |posts|
    decreases |posts|
  {
    if posts != [] {
      OfferAllQueueLength(EnqueueAppend(c, posts[0].data, posts[0].offset), posts[1..]);
    }
  }

  /**
   Offered non-empty ranges that do not overlap, a client is queued every one of them if and
   only if none lies below its `lastEnd` and they come in increasing order of offset.
   */
  lemma {:induction false} AllQueuedIffInOrder(c: Conn, posts: seq<Post>)
    requires forall i :: 0 <= i < |posts| ==> posts[i].data != []
    requires forall i, j :: 0 <= i < j < |posts| ==> Disjoint(posts[i], posts[j])
    ensures |OfferAll(c, posts).queue| == |c.queue| + |posts| <==>
            (forall i :: 0 <= i < |posts| ==> c.lastEnd <= posts[i].offset) &&
            (forall i, j :: 0 <= i < j < |posts| ==> posts[i].offset < posts[j].offset)
    decreases |posts|
  {
    if posts != [] {
      var c' := EnqueueAppend(c, posts[0].data, posts[0].offset);
      var rest := posts[1..];
      assert forall i :: 0 <= i < |rest| ==> rest[i] == posts[i + 1];
      OfferAllQueueLength(c', rest);
      AllQueuedIffInOrder(c', rest);
      if posts[0].offset >= c.lastEnd {
        assert c'.lastEnd == posts[0].offset + |posts[0].data|;
        if forall i :: 0 <= i < |rest| ==> c'.lastEnd <= rest[i].offset {
          forall i | 0 < i < |posts| ensures posts[0].offset < posts[i].offset {
            assert rest[i - 1] == posts[i];
          }
          assert forall i, j :: 0 < i < j < |posts| ==> posts[i] == rest[i - 1] && posts[j] == rest[j - 1];
        } else {
          var i :| 0 <= i < |rest| && c'.lastEnd > rest[i].offset;
          assert Disjoint(posts[0], posts[i + 1]);
          assert posts[i + 1].offset < posts[0].offset;
        }
      }
    }
  }
}
