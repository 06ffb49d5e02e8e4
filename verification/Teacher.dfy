/** The client program of the stress test, and how it relates to the remote client of the protocol. */
module Teacher {
  import opened Base
  import opened Protocol

  datatype State = State(offset: nat, gotAck: bool)

  function Hear(t: State, m: Message): State {
    match m
    case AppendMsg(offset, data) => State(offset + |data|, true)
    case AckNackMsg(ack, length) => if ack == ACK then State(length, true) else t
    case _ => t
  }

  function HearAll(t: State, queue: seq<Message>): State
    decreases |queue|
  {
    if queue == [] then t else HearAll(Hear(t, queue[0]), queue[1..])
  }

  class Teacher {
    var offset: nat
    var gotAck: bool

    ghost function Now(): State
      reads this
    {
      State(offset, gotAck)
    }

    /** From the first message of the connection. */
    constructor (from: nat, data: Bytes)
      ensures Now() == State(from + |data|, true)
    {
      offset, gotAck := from + |data|, true;
    }

    /** One round of the writing loop: where the next append starts, if one may be sent. */
    method Write() returns (at: Option<nat>)
      modifies this
      ensures at == if old(gotAck) then Some(old(offset)) else None
      ensures Now() == State(old(offset), false)
    {
      at := None;
      if !gotAck {
        return;
      }
      at := Some(offset);
      gotAck := false;
    }

    /** One round of the reading loop, for the messages the program knows. */
    method Read(m: Message)
      requires m.AppendMsg? || m.AckNackMsg?
      modifies this
      ensures Now() == Hear(old(Now()), m)
    {
      if m.AppendMsg? {
        offset := m.offset + |m.data|;
        gotAck := true;
      } else if m.ack == ACK {
        offset := m.length;
        gotAck := true;
      }
    }
  }

  /**
   The program keeps no copy.  As long as answers come to appends only, its offset is the one the
   protocol's client keeps, however many of its appends are unanswered.
   */
  lemma {:induction false} OffsetsAgree(t: State, r: Remote, queue: seq<Message>)
    requires t.offset == r.offset && Replies(queue) <= |r.awaiting|
    ensures HearAll(t, queue).offset == ReceiveAll(r, queue).offset
    decreases |queue|
  {
    if queue != [] {
      OffsetsAgree(Hear(t, queue[0]), Receive(r, queue[0]), queue[1..]);
    }
  }

  predicate EndsWaiting(m: Message) { m.AppendMsg? || (m.AckNackMsg? && m.ack == ACK) }

  /** A rejected append is not sent again before a new range of the document has arrived. */
  lemma {:induction false} WaitsAfterRejection(t: State, queue: seq<Message>)
    requires !t.gotAck
    ensures HearAll(t, queue).gotAck <==>
            exists i :: 0 <= i < |queue| && EndsWaiting(queue[i])
    decreases |queue|
  {
    if queue != [] {
      var t' := Hear(t, queue[0]);
      if t'.gotAck {
        OnceHeard(t', queue[1..]);
      } else {
        WaitsAfterRejection(t', queue[1..]);
        assert forall i :: 0 < i < |queue| ==> queue[i] == queue[1..][i - 1];
        assert forall i :: 0 <= i < |queue| - 1 ==> queue[1..][i] == queue[i + 1];
      }
    }
  }

  lemma {:induction false} OnceHeard(t: State, queue: seq<Message>)
    requires t.gotAck
    ensures HearAll(t, queue).gotAck
    decreases |queue|
  {
    if queue != [] {
      OnceHeard(Hear(t, queue[0]), queue[1..]);
    }
  }
}
