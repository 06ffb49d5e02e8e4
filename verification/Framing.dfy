/** Splitting messages into websocket frames of a limited size, and joining them again. */
module Framing {
  import opened Base

  const CONTINUATION: Byte := 0xff

  /** The frames of a message; byte 1 of a frame says whether more of the message follows. */
  function Frames(data: Bytes, maxSize: nat): seq<Bytes>
    requires |data| >= 2 && (|data| <= maxSize || maxSize >= 3)
  {
    if |data| <= maxSize then [data[1 := 0]]
    else [data[1 := 1][..maxSize]] + Continuations(data[maxSize..], maxSize)
  }

  function Continuations(left: Bytes, maxSize: nat): seq<Bytes>
    requires maxSize >= 3
    decreases |left|
  {
    if left == [] then []
    else if |left| > maxSize - 2 then
      [[CONTINUATION, 1] + left[..maxSize - 2]] + Continuations(left[maxSize - 2..], maxSize)
    else [[CONTINUATION, 0] + left]
  }

  lemma {:induction false} ContinuationsStep(data: Bytes, from: nat, send: nat, maxSize: nat)
    requires maxSize >= 3 && from < |data|
    requires send == if |data| - from > maxSize - 2 then maxSize - 2 else |data| - from
    ensures Continuations(data[from..], maxSize) ==
            [[CONTINUATION, if |data| - from > maxSize - 2 then 1 else 0] + data[from..from + send]]
            + Continuations(data[from + send..], maxSize)
  {
    assert data[from..][..send] == data[from..from + send];
    assert data[from..][send..] == data[from + send..];
    if from + send == |data| {
      assert data[from..from + send] == data[from..] && data[from + send..] == [];
    }
  }

  /** The message as its receiver sees it: byte 1 tells whether it was split. */
  function Flagged(data: Bytes, maxSize: nat): Bytes
    requires |data| >= 2
  {
    data[1 := if |data| > maxSize then 1 else 0]
  }

  datatype ReadResult = Message(data: Bytes, rest: seq<Bytes>) | Closed | Panic

  /** Reads one message from the frames that arrive. */
  function ReadMessage(frames: seq<Bytes>): ReadResult {
    if frames == [] then Closed
    else if |frames[0]| < 2 then Panic
    else if frames[0][1] == 0 then Message(frames[0], frames[1..])
    else ReadMore(frames[0], frames[1..])
  }

  function ReadMore(buffer: Bytes, frames: seq<Bytes>): ReadResult
    decreases |frames|
  {
    if frames == [] then Closed
    else if |frames[0]| < 2 || frames[0][0] != CONTINUATION then Panic
    else if frames[0][1] == 0 then Message(buffer + frames[0][2..], frames[1..])
    else ReadMore(buffer + frames[0][2..], frames[1..])
  }

  // ----- The loops ----------------------------------------------------------------------

  /** A websocket connection: the frames written to it and the frames still to be read from it. */
  class Connection {
    var sent: seq<Bytes>
    var incoming: seq<Bytes>

    constructor (incoming: seq<Bytes>)
      ensures sent == [] && this.incoming == incoming
    {
      sent := [];
      this.incoming := incoming;
    }

    method WriteMessage(frame: Bytes)
      modifies this`sent
      ensures sent == old(sent) + [frame]
    {
      sent := sent + [frame];
    }

    /** Sets the flag in the message itself and writes the frames. */
    method SendMessage(data: array<Byte>, maxSize: nat)
      requires data.Length >= 2 && (data.Length <= maxSize || maxSize >= 3)
      modifies this`sent, data
      ensures sent == old(sent) + Frames(old(data[..]), maxSize)
      ensures data[..] == Flagged(old(data[..]), maxSize)
    {
      ghost var message := data[..];
      var send := data.Length;
      if send > maxSize {
        send := maxSize;
        data[1] := 1;
      } else {
        data[1] := 0;
      }
      assert data[..] == Flagged(message, maxSize);
      assert data[..send] == Flagged(message, maxSize)[..send];
      WriteMessage(data[..send]);
      if send < data.Length {
        SendRest(data, send, maxSize);
        assert data[send..] == message[send..];
      } else {
        assert Flagged(message, maxSize)[..send] == Flagged(message, maxSize);
      }
    }

    /** The loop over what is left from index `start` on. */
    method SendRest(data: array<Byte>, start: nat, maxSize: nat)
      requires start <= data.Length && maxSize >= 3
      modifies this`sent
      ensures sent == old(sent) + Continuations(data[start..], maxSize)
    {
      var from := start;
      ghost var all := data[..];
      while from < data.Length
        invariant start <= from <= data.Length
        invariant sent + Continuations(all[from..], maxSize) == old(sent) + Continuations(all[start..], maxSize)
      {
        var send := data.Length - from;
        var more: Byte := 0;
        if send > maxSize - 2 {
          send := maxSize - 2;
          more := 1;
        }
        ContinuationsStep(all, from, send, maxSize);
        assert data[from..from + send] == all[from..from + send];
        WriteMessage([CONTINUATION, more] + data[from..from + send]);
        from := from + send;
      }
    }

    /** Joins frames until one says that nothing follows. */
    method Read() returns (r: ReadResult)
      modifies this`incoming
      ensures r == ReadMessage(old(incoming))
      ensures r.Message? ==> incoming == r.rest
    {
      var buffer: Option<Bytes> := None;
      while true
        invariant ReadMessage(old(incoming)) ==
                  if buffer.None? then ReadMessage(incoming) else ReadMore(buffer.value, incoming)
        decreases |incoming|
      {
        if incoming == [] {
          return Closed;
        }
        var p := incoming[0];
        incoming := incoming[1..];
        if |p| < 2 {
          return Panic;
        }
        if buffer.None? {
          buffer := Some(p);
        } else if p[0] == CONTINUATION {
          buffer := Some(buffer.value + p[2..]);
        } else {
          return Panic;
        }
        if p[1] == 0 {
          return Message(buffer.value, incoming);
        }
      }
    }
  }

  // ----- Reading back what was written --------------------------------------------------

  lemma {:induction false} ReadContinuations(buffer: Bytes, left: Bytes, maxSize: nat, rest: seq<Bytes>)
    requires maxSize >= 3 && left != []
    ensures ReadMore(buffer, Continuations(left, maxSize) + rest) == Message(buffer + left, rest)
    decreases |left|
  {
    var frames := Continuations(left, maxSize) + rest;
    if |left| > maxSize - 2 {
      var head, tail := left[..maxSize - 2], left[maxSize - 2..];
      ReadContinuations(buffer + head, tail, maxSize, rest);
      assert frames[1..] == Continuations(tail, maxSize) + rest;
      assert frames[0][2..] == head;
      assert buffer + head + tail == buffer + left;
    } else {
      assert frames[0][2..] == left;
      assert frames[1..] == rest;
    }
  }

  /** A message is read back whole, with the frames behind it left for the next. */
  lemma {:induction false} FramesReadBack(data: Bytes, maxSize: nat, rest: seq<Bytes>)
    requires |data| >= 2 && (|data| <= maxSize || maxSize >= 3)
    ensures ReadMessage(Frames(data, maxSize) + rest) == Message(Flagged(data, maxSize), rest)
  {
    var frames := Frames(data, maxSize) + rest;
    if |data| <= maxSize {
      assert frames[1..] == rest;
    } else {
      assert frames[1..] == Continuations(data[maxSize..], maxSize) + rest;
      ReadContinuations(frames[0], data[maxSize..], maxSize, rest);
      assert frames[0] + data[maxSize..] == Flagged(data, maxSize);
    }
  }

  /** A message and the limit it is sent under. */
  datatype Outgoing = Outgoing(data: Bytes, maxSize: nat)

  type Sendable = o: Outgoing | |o.data| >= 2 && (|o.data| <= o.maxSize || o.maxSize >= 3) witness Outgoing([0, 0], 2)

  function Stream(messages: seq<Sendable>): seq<Bytes>
    decreases |messages|
  {
    if messages == [] then [] else Frames(messages[0].data, messages[0].maxSize) + Stream(messages[1..])
  }

  /** Everything a reader gets before the connection closes; None if it panics or a message is incomplete. */
  function ReadAll(frames: seq<Bytes>): Option<seq<Bytes>>
    decreases |frames|
  {
    if frames == [] then Some([])
    else
      match ReadMessage(frames)
      case Message(data, rest) =>
        if |rest| < |frames| then
          var more := ReadAll(rest);
          if more.Some? then Some([data] + more.value) else None
        else None
      case _ => None
  }

  /** The stream of any messages under any limits reads back as exactly those messages. */
  lemma {:induction false} StreamReadsBack(messages: seq<Sendable>)
    ensures var r := ReadAll(Stream(messages));
            && r.Some? && |r.value| == |messages|
            && forall i :: 0 <= i < |messages| ==> r.value[i] == Flagged(messages[i].data, messages[i].maxSize)
    decreases |messages|
  {
    if messages != [] {
      FramesReadBack(messages[0].data, messages[0].maxSize, Stream(messages[1..]));
      StreamReadsBack(messages[1..]);
    }
  }

  // ----- What is read is a complete message ---------------------------------------------

  /** The first n frames are one message so far: all but the first are continuations, and none says that it is the last. */
  predicate Unfinished(frames: seq<Bytes>, n: nat) {
    && n <= |frames|
    && (forall i :: 0 <= i < n ==> |frames[i]| >= 2 && frames[i][1] != 0)
    && (forall i :: 1 <= i < n ==> frames[i][0] == 0xff)
  }

  /** Frame n goes on with the message. */
  predicate GoesOn(frames: seq<Bytes>, n: nat) {
    n < |frames| && |frames[n]| >= 2 && (n > 0 ==> frames[n][0] == 0xff)
  }

  /** The bytes of the first n frames: the first whole, the others without their two. */
  function Joined(frames: seq<Bytes>, n: nat): Bytes
    requires n <= |frames| && forall i :: 1 <= i < n ==> |frames[i]| >= 2
  {
    if n == 0 then [] else if n == 1 then frames[0] else Joined(frames, n - 1) + frames[n - 1][2..]
  }

  /**
   How reading ends, by where the first frame stands that does not go on with an unfinished message
   or finishes it: with the message of all frames up to there, or a panic, or the end of the stream.
   */
  predicate EndsAt(frames: seq<Bytes>, n: nat, r: ReadResult) {
    && Unfinished(frames, n)
    && if n == |frames| then r == Closed
       else if !GoesOn(frames, n) then r == Panic
       else frames[n][1] == 0 && r == Message(Joined(frames, n + 1), frames[n + 1..])
  }

  /** One frame more, if it goes on with the message. */
  lemma {:induction false} OneFrameMore(frames: seq<Bytes>, n: nat)
    requires n > 0 && Unfinished(frames, n) && GoesOn(frames, n)
    ensures ReadMore(Joined(frames, n), frames[n..]) ==
            if frames[n][1] == 0 then Message(Joined(frames, n + 1), frames[n + 1..])
            else ReadMore(Joined(frames, n + 1), frames[n + 1..])
  {
    assert frames[n..][0] == frames[n] && frames[n..][1..] == frames[n + 1..];
  }

  lemma {:induction false} ReadingMore(frames: seq<Bytes>, n: nat)
    requires n > 0 && Unfinished(frames, n)
    ensures exists k: nat :: EndsAt(frames, k, ReadMore(Joined(frames, n), frames[n..]))
    decreases |frames| - n
  {
    var r := ReadMore(Joined(frames, n), frames[n..]);
    if n < |frames| && GoesOn(frames, n) {
      OneFrameMore(frames, n);
      if frames[n][1] == 0 {
        assert EndsAt(frames, n, r);
      } else {
        assert Unfinished(frames, n + 1);
        ReadingMore(frames, n + 1);
      }
    } else {
      assert n < |frames| ==> frames[n..][0] == frames[n];
      assert EndsAt(frames, n, r);
    }
  }

  lemma {:induction false} WentOn(frames: seq<Bytes>, n: nat, m: nat)
    requires Unfinished(frames, m) && n < m
    ensures GoesOn(frames, n) && frames[n][1] != 0
  {
  }

  lemma {:induction false} EndIsUnique(frames: seq<Bytes>, n: nat, m: nat, r: ReadResult, s: ReadResult)
    requires EndsAt(frames, n, r) && EndsAt(frames, m, s)
    ensures n == m && r == s
  {
    if n < m {
      WentOn(frames, n, m);
    } else if m < n {
      WentOn(frames, m, n);
    }
  }

  /** What is read as a message is a complete run of frames, and a stream that ends before gives none. */
  lemma {:induction false} ReadingEnds(frames: seq<Bytes>, r: ReadResult)
    ensures r == ReadMessage(frames) <==> exists n: nat :: EndsAt(frames, n, r)
  {
    if frames != [] && |frames[0]| >= 2 && frames[0][1] != 0 {
      ReadingMore(frames, 1);
    } else {
      assert EndsAt(frames, 0, ReadMessage(frames));
    }
    var k: nat :| EndsAt(frames, k, ReadMessage(frames));
    forall n: nat | EndsAt(frames, n, r) ensures r == ReadMessage(frames) {
      EndIsUnique(frames, n, k, r, ReadMessage(frames));
    }
  }

  // ----- The shape of the frames --------------------------------------------------------

  lemma {:induction false} ContinuationShape(left: Bytes, maxSize: nat)
    requires maxSize >= 3 && left != []
    ensures var fs := Continuations(left, maxSize);
            && fs != []
            && forall i :: 0 <= i < |fs| ==>
                 && 2 <= |fs[i]| <= maxSize && (i < |fs| - 1 ==> |fs[i]| == maxSize)
                 && fs[i][0] == CONTINUATION && fs[i][1] == if i < |fs| - 1 then 1 else 0
    decreases |left|
  {
    if |left| > maxSize - 2 {
      ContinuationShape(left[maxSize - 2..], maxSize);
    }
  }

  /** Every frame but the last is as long as the limit allows, the last has two bytes at least, and only the last says that nothing follows. */
  lemma {:induction false} FrameShape(data: Bytes, maxSize: nat)
    requires |data| >= 2 && (|data| <= maxSize || maxSize >= 3)
    ensures var fs := Frames(data, maxSize);
            && fs != []
            && forall i :: 0 <= i < |fs| ==>
                 && 2 <= |fs[i]| <= maxSize
                 && (i < |fs| - 1 ==> |fs[i]| == maxSize)
                 && fs[i][1] == (if i < |fs| - 1 then 1 else 0)
                 && (i > 0 ==> fs[i][0] == 0xff)
  {
    if |data| > maxSize {
      ContinuationShape(data[maxSize..], maxSize);
    }
  }

  lemma {:induction false} ContinuationCount(left: Bytes, maxSize: nat)
    requires maxSize >= 3 && left != []
    ensures var n := |Continuations(left, maxSize)|;
            (maxSize - 2) * (n - 1) < |left| <= (maxSize - 2) * n
    decreases |left|
  {
    var k := maxSize - 2;
    if |left| > k {
      ContinuationCount(left[k..], maxSize);
      var n := |Continuations(left[k..], maxSize)|;
      assert k * n == k * (n - 1) + k && k * (n + 1) == k * n + k;
    }
  }

  /** One frame, and as few more as can hold what is beyond the limit at maxSize - 2 bytes each. */
  lemma {:induction false} FrameCount(data: Bytes, maxSize: nat)
    requires |data| >= 2 && maxSize >= 3
    ensures var more := |Frames(data, maxSize)| - 1;
            if |data| <= maxSize then more == 0
            else (maxSize - 2) * (more - 1) < |data| - maxSize <= (maxSize - 2) * more
  {
    if |data| > maxSize {
      ContinuationCount(data[maxSize..], maxSize);
    }
  }

  // ----- When sending ends --------------------------------------------------------------

  /** One round of the loop: what is left afterwards, or None for a slice out of range. */
  function Round(left: Bytes, maxSize: nat): Option<Bytes>
    requires left != []
  {
    var send: int := if |left| > maxSize - 2 then maxSize - 2 else |left|;
    if send < 0 then None else Some(left[send..])
  }

  /** The loop ends after n rounds without a panic. */
  predicate EndsAfter(left: Bytes, maxSize: nat, n: nat) {
    if left == [] then n == 0
    else n > 0 && Round(left, maxSize).Some? && EndsAfter(Round(left, maxSize).value, maxSize, n - 1)
  }

  predicate SendEndsAfter(data: Bytes, maxSize: nat, n: nat)
    requires |data| >= 2
  {
    EndsAfter(data[if |data| > maxSize then maxSize else |data|..], maxSize, n)
  }

  lemma {:induction false} LargeLimitEnds(left: Bytes, maxSize: nat) returns (n: nat)
    requires maxSize >= 3
    ensures EndsAfter(left, maxSize, n)
    decreases |left|
  {
    if left == [] {
      n := 0;
    } else {
      n := LargeLimitEnds(Round(left, maxSize).value, maxSize);
      n := n + 1;
    }
  }

  lemma {:induction false} SmallLimitNeverEnds(left: Bytes, maxSize: nat, n: nat)
    requires maxSize < 3 && left != []
    ensures !EndsAfter(left, maxSize, n)
    decreases n
  {
    if n > 0 && Round(left, maxSize).Some? {
      assert Round(left, maxSize).value == left;
      SmallLimitNeverEnds(left, maxSize, n - 1);
    }
  }

  /** Sending a message ends if and only if the message fits the limit or the limit is at least 3. */
  lemma {:induction false} SendEndsIff(data: Bytes, maxSize: nat)
    requires |data| >= 2
    ensures (exists n :: SendEndsAfter(data, maxSize, n)) <==> |data| <= maxSize || maxSize >= 3
  {
    var left := data[if |data| > maxSize then maxSize else |data|..];
    if |data| <= maxSize {
      assert SendEndsAfter(data, maxSize, 0);
    } else if maxSize >= 3 {
      var n := LargeLimitEnds(left, maxSize);
      assert SendEndsAfter(data, maxSize, n);
    } else {
      forall n ensures !SendEndsAfter(data, maxSize, n) {
        SmallLimitNeverEnds(left, maxSize, n);
      }
    }
  }
}
