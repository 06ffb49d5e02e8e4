/** The messages byte by byte, sent and received. */
module WireBytes {
  import opened Base
  import opened Codec
  import opened Messages
  import opened Wire
  import Protocol
  import Store

  // ----- Sending ------------------------------------------------------------------------

  /** The encoding of the first k fields. */
  function Front(fs: Schema, vs: seq<Value>, k: nat): Bytes
    requires TypedAll(fs, vs) && k <= |fs|
    decreases k
  {
    if k == 0 then [] else Front(fs, vs, k - 1) + EncodeField(fs[k - 1], vs[k - 1])
  }

  lemma {:induction false} FrontIsEncoded(fs: Schema, vs: seq<Value>, k: nat)
    requires TypedAll(fs, vs) && k <= |fs|
    ensures Typed(fs, vs) && Typed(fs[k..], vs[k..])
    ensures Encode(fs, vs) == Front(fs, vs, k) + Encode(fs[k..], vs[k..])
    decreases k
  {
    TypedPointwise(fs, vs);
    TypedPointwise(fs[k..], vs[k..]);
    if k == 0 {
      assert fs[0..] == fs && vs[0..] == vs;
    } else {
      FrontIsEncoded(fs, vs, k - 1);
      assert fs[k - 1..][1..] == fs[k..] && vs[k - 1..][1..] == vs[k..];
    }
  }

  lemma {:induction false} EncodedInOrder(fs: Schema, vs: seq<Value>)
    requires TypedAll(fs, vs)
    ensures Typed(fs, vs) && Encode(fs, vs) == Front(fs, vs, |fs|)
  {
    FrontIsEncoded(fs, vs, |fs|);
    assert fs[|fs|..] == [] && vs[|fs|..] == [];
  }

  lemma {:induction false} OneDigit(n: nat)
    requires n < 256
    ensures Digits(n, 1) == [n]
  {
    assert Digits(n, 1) == Digits(n / 256, 0) + [n % 256];
  }

  /** Type and flag of a message. */
  lemma {:induction false} Head(fs: Schema, vs: seq<Value>, kind: Byte, more: Byte)
    requires TypedAll(fs, vs) && |fs| >= 2 && fs[0] == IntField(1) && fs[1] == IntField(1)
    requires vs[0] == IntValue(kind) && vs[1] == IntValue(more)
    ensures Front(fs, vs, 2) == [kind, more]
  {
    OneDigit(kind);
    OneDigit(more);
    assert Front(fs, vs, 1) == Front(fs, vs, 0) + Digits(kind, 1);
    assert Front(fs, vs, 2) == Front(fs, vs, 1) + Digits(more, 1);
  }

  lemma {:induction false} Zeros()
    ensures Digits(0, 4) == [0, 0, 0, 0]
  {
    assert Digits(0, 2) == Digits(0, 1) + [0] && Digits(0, 1) == Digits(0, 0) + [0];
    assert Digits(0, 4) == Digits(0, 3) + [0] && Digits(0, 3) == Digits(0, 2) + [0];
  }

  /** Both versions of an append. */
  lemma {:induction false} AppendBytes(m: Append)
    requires ValidAppend(m) && |m.data| <= MAX_PAYLOAD && m.more < 256
    ensures EncodeAppend(m, true) == [0x02, m.more] + Digits(m.offset, 8) + m.data
    ensures EncodeAppend(m, false) == [0x05, m.more] + Digits(m.generation, 4) + Digits(m.offset, 8) + m.data
  {
    AppendIsTyped(m);
    var vs2, vs3 := AppendV2Values(m), AppendV3Values(m);
    EncodedInOrder(APPEND_V2, vs2);
    Head(APPEND_V2, vs2, 0x02, m.more);
    assert Front(APPEND_V2, vs2, 4) == Front(APPEND_V2, vs2, 2) + Digits(m.offset, 8) + m.data;
    EncodedInOrder(APPEND, vs3);
    Head(APPEND, vs3, 0x05, m.more);
    assert Front(APPEND, vs3, 4) == Front(APPEND, vs3, 2) + Digits(m.generation, 4) + Digits(m.offset, 8);
  }

  lemma {:induction false} FrontStep(fs: Schema, vs: seq<Value>, k: nat)
    requires TypedAll(fs, vs) && k < |fs|
    ensures Front(fs, vs, k + 1) == Front(fs, vs, k) + EncodeField(fs[k], vs[k])
  {
  }

  /** Type, flag, version, size limit and creation mode, in both versions. */
  lemma {:induction false} InitHead(fs: Schema, vs: seq<Value>, m: Init)
    requires m.more < 256 && TypedAll(fs, vs) && |fs| >= 5 && fs[..5] == [U8, U8, U16, U32, U8]
    requires vs[..5] == InitV3Values(m)[..5]
    ensures Front(fs, vs, 5) == [0x01, m.more] + Digits(m.version, 2) + Digits(m.maxSize, 4) + Digits(m.mode, 1)
  {
    assert forall i :: 0 <= i < 5 ==> fs[i] == fs[..5][i] && vs[i] == vs[..5][i];
    Head(fs, vs, 0x01, m.more);
    FrontStep(fs, vs, 2);
    FrontStep(fs, vs, 3);
    FrontStep(fs, vs, 4);
  }

  /** An init message of version 2. */
  lemma {:induction false} InitV2Bytes(m: Init)
    requires ValidInit(m) && |m.docId| <= MAX_PAYLOAD && |m.data| <= MAX_PAYLOAD && m.more < 256
    requires m.version == 2 && IsU8(|m.docId|)
    ensures EncodeInit(m) ==
            [0x01, m.more] + Digits(m.version, 2) + Digits(m.maxSize, 4) + Digits(m.mode, 1) +
            Digits(m.offset, 8) + Digits(|m.docId|, 1) + m.docId + m.data
  {
    var vs := InitV2Values(m);
    InitValuesTyped(m);
    EncodedInOrder(INIT_V2, vs);
    InitHead(INIT_V2, vs, m);
    FrontStep(INIT_V2, vs, 5);
    FrontStep(INIT_V2, vs, 6);
    FrontStep(INIT_V2, vs, 7);
    FrontStep(INIT_V2, vs, 8);
  }

  /** And of any later version. */
  lemma {:induction false} InitV3Bytes(m: Init)
    requires ValidInit(m) && |m.docId| <= MAX_PAYLOAD && |m.data| <= MAX_PAYLOAD && m.more < 256
    requires m.version != 2 && IsU32(|m.docId|)
    ensures EncodeInit(m) ==
            [0x01, m.more] + Digits(m.version, 2) + Digits(m.maxSize, 4) + Digits(m.mode, 1) +
            Digits(m.generation, 4) + Digits(m.offset, 8) + Digits(|m.docId|, 4) + m.docId + m.data
  {
    var vs := InitV3Values(m);
    InitValuesTyped(m);
    EncodedInOrder(INIT, vs);
    InitHead(INIT, vs, m);
    FrontStep(INIT, vs, 5);
    FrontStep(INIT, vs, 6);
    FrontStep(INIT, vs, 7);
    FrontStep(INIT, vs, 8);
    FrontStep(INIT, vs, 9);
  }

  lemma {:induction false} AckBytes(ack: nat, length: nat)
    requires IsU16(ack) && IsU64(length)
    ensures EncodeMessage(3, Protocol.AckNackMsg(ack, length)) == [0x81, 0] + Digits(ack, 2) + Digits(length, 8)
  {
    var m := Protocol.AckNackMsg(ack, length);
    var vs := ValuesOf(3, m);
    MessageIsTyped(3, m);
    EncodedInOrder(ACK_NACK, vs);
    Head(ACK_NACK, vs, 0x81, 0);
    assert Front(ACK_NACK, vs, 4) == Front(ACK_NACK, vs, 2) + Digits(ack, 2) + Digits(length, 8);
  }

  lemma {:induction false} BroadcastBytes(payload: Bytes)
    requires |payload| <= MAX_PAYLOAD
    ensures EncodeMessage(3, Protocol.BroadcastMsg(payload)) ==
            [0x04, 0] + Digits(|payload| % 0x1_0000_0000, 4) + payload
  {
    var m := Protocol.BroadcastMsg(payload);
    var vs := ValuesOf(3, m);
    MessageIsTyped(3, m);
    EncodedInOrder(BROADCAST, vs);
    Head(BROADCAST, vs, 0x04, 0);
    assert Front(BROADCAST, vs, 4) == Front(BROADCAST, vs, 2) + Digits(|payload| % 0x1_0000_0000, 4) + payload;
  }

  lemma {:induction false} SetKeyAckBytes(ok: bool, requestId: nat)
    requires IsU16(requestId)
    ensures EncodeMessage(3, Protocol.SetKeyAckNackMsg(ok, requestId)) ==
            [0x83, 0] + [0, if ok then 1 else 0] + Digits(requestId, 2)
  {
    var m, bit := Protocol.SetKeyAckNackMsg(ok, requestId), if ok then 1 else 0;
    var vs := ValuesOf(3, m);
    MessageIsTyped(3, m);
    EncodedInOrder(SET_KEY_ACK_NACK, vs);
    Head(SET_KEY_ACK_NACK, vs, 0x83, 0);
    OneDigit(0);
    assert Digits(bit, 2) == Digits(0, 1) + [bit];
    assert Front(SET_KEY_ACK_NACK, vs, 4) == Front(SET_KEY_ACK_NACK, vs, 2) + Digits(bit, 2) + Digits(requestId, 2);
  }

  /** What is queued for a connection: appends by its version, all else alike. */
  lemma {:induction false} MessageBytes(version: nat, m: Protocol.Message)
    requires Encodable(m)
    ensures EncodeMessage(version, m) ==
            match m {
              case AppendMsg(offset, data) =>
                if version < 3 then [0x02, 0] + Digits(offset, 8) + data
                else [0x05, 0] + [0, 0, 0, 0] + Digits(offset, 8) + data
              case AckNackMsg(ack, length) => [0x81, 0] + Digits(ack, 2) + Digits(length, 8)
              case BroadcastMsg(payload) => [0x04, 0] + Digits(|payload| % 0x1_0000_0000, 4) + payload
              case SetKeyAckNackMsg(ok, requestId) => [0x83, 0] + [0, if ok then 1 else 0] + Digits(requestId, 2)
            }
  {
    match m
    case AppendMsg(offset, data) =>
      MessageIsTyped(version, m);
      AppendBytes(Append(0, 0, offset, data));
      Zeros();
    case AckNackMsg(ack, length) => AckBytes(ack, length);
    case BroadcastMsg(payload) => BroadcastBytes(payload);
    case SetKeyAckNackMsg(ok, requestId) => SetKeyAckBytes(ok, requestId);
  }

  /** The error message, with its code and no length of its text. */
  lemma {:induction false} ErrorBytes(more: Byte, code: nat, description: Bytes)
    requires IsU16(code)
    ensures var vs := [IntValue(ERROR_TYPE), IntValue(more), IntValue(code), TextValue(description)];
            Typed(ERROR, vs) && Encode(ERROR, vs) == [0x80, more] + Digits(code, 2) + description
  {
    var vs := [IntValue(ERROR_TYPE), IntValue(more), IntValue(code), TextValue(description)];
    assert Power256(1) == 256;
    EncodedInOrder(ERROR, vs);
    Head(ERROR, vs, 0x80, more);
    assert Front(ERROR, vs, 4) == Front(ERROR, vs, 2) + Digits(code, 2) + description;
  }

  function KeyBytes(k: Store.Key): Bytes
    requires ValidKey(k)
  {
    Digits(k.version, 4) + Digits(|k.name|, 4) + k.name + Digits(|k.value|, 4) + k.value
  }

  lemma {:induction false} OneKeyBytes(k: Store.Key)
    requires ValidKey(k)
    ensures Typed(KEY, KeyValues(k)) && Encode(KEY, KeyValues(k)) == KeyBytes(k)
  {
    var vs := KeyValues(k);
    EncodedInOrder(KEY, vs);
    assert Front(KEY, vs, 2) == Digits(k.version, 4) + Digits(|k.name|, 4);
    assert Front(KEY, vs, 5) == Front(KEY, vs, 2) + k.name + Digits(|k.value|, 4) + k.value;
  }

  function AllKeyBytes(keys: seq<Store.Key>): Bytes
    requires forall i :: 0 <= i < |keys| ==> ValidKey(keys[i])
    decreases |keys|
  {
    if keys == [] then [] else KeyBytes(keys[0]) + AllKeyBytes(keys[1..])
  }

  lemma {:induction false} ItemBytes(keys: seq<Store.Key>, items: seq<seq<Value>>)
    requires forall i :: 0 <= i < |keys| ==> ValidKey(keys[i])
    requires |items| == |keys| && forall i :: 0 <= i < |keys| ==> items[i] == KeyValues(keys[i])
    ensures (forall i :: 0 <= i < |items| ==> Typed(KEY, items[i])) && EncodeItems(KEY, items) == AllKeyBytes(keys)
    decreases |keys|
  {
    forall i | 0 <= i < |keys| ensures Typed(KEY, items[i]) {
      OneKeyBytes(keys[i]);
    }
    if keys != [] {
      OneKeyBytes(keys[0]);
      ItemBytes(keys[1..], items[1..]);
    }
  }

  /** The list of keys, one after the other up to the end. */
  lemma {:induction false} KeyListBytes(keys: seq<Store.Key>)
    requires forall i :: 0 <= i < |keys| ==> ValidKey(keys[i])
    ensures var vs := KeyInformationValues(keys);
            Typed(KEY_INFORMATION, vs) && Encode(KEY_INFORMATION, vs) == [0x82, 0] + AllKeyBytes(keys)
  {
    var vs := KeyInformationValues(keys);
    KeyInformationIsTyped(keys);
    TypedPointwise(KEY_INFORMATION, vs);
    EncodedInOrder(KEY_INFORMATION, vs);
    Head(KEY_INFORMATION, vs, 0x82, 0);
    ItemBytes(keys, vs[2].items);
    assert Front(KEY_INFORMATION, vs, 3) == Front(KEY_INFORMATION, vs, 2) + EncodeItems(KEY, vs[2].items);
  }

  // ----- Receiving ----------------------------------------------------------------------

  /** Where field n begins if all before it are integers. */
  function Width(fs: Schema, n: nat): (w: nat)
    requires n <= |fs| && forall i :: 0 <= i < n ==> fs[i].IntField?
    ensures forall i: nat :: i <= n ==> Width(fs, i) <= w
  {
    if n == 0 then 0 else Width(fs, n - 1) + fs[n - 1].size
  }

  /** The integer at place i. */
  function NumberAt(fs: Schema, m: Bytes, i: nat): nat
    requires i < |fs| && (forall j :: 0 <= j <= i ==> fs[j].IntField?) && Width(fs, i + 1) <= |m|
  {
    BigEndian(m[Width(fs, i)..Width(fs, i + 1)])
  }

  function Prepend(front: seq<Value>, rest: Result<seq<Value>>): Result<seq<Value>> {
    match rest
    case Decoded(vs, pos) => Decoded(front + vs, pos)
    case _ => rest
  }

  /** The values of the first n fields. */
  function Numbers(fs: Schema, m: Bytes, n: nat): (vs: seq<Value>)
    requires n <= |fs| && (forall i :: 0 <= i < n ==> fs[i].IntField?) && Width(fs, n) <= |m|
    ensures |vs| == n && forall i :: 0 <= i < n ==> Width(fs, i + 1) <= |m| && vs[i] == IntValue(NumberAt(fs, m, i))
  {
    seq(n, i requires 0 <= i < n => IntValue(NumberAt(fs, m, i)))
  }

  lemma {:induction false} IntAt(fs: Schema, k: nat, m: Bytes, pos: nat, value: nat)
    requires k < |fs| && Productive(fs[k..]) && fs[k].IntField? && pos <= |m|
    ensures Productive(fs[k + 1..])
    ensures var end := pos + fs[k].size;
            Decode(fs[k..], m, pos, value) ==
            if end > |m| then TooShort
            else Prepend([IntValue(BigEndian(m[pos..end]))], Decode(fs[k + 1..], m, end, BigEndian(m[pos..end])))
  {
    assert fs[k..][1..] == fs[k + 1..];
  }

  lemma {:induction false} PrependTwice(a: seq<Value>, b: seq<Value>, r: Result<seq<Value>>)
    ensures Prepend(a, Prepend(b, r)) == Prepend(a + b, r)
  {
    assert r.Decoded? ==> a + (b + r.value) == a + b + r.value;
  }

  lemma {:induction false} OneNumberMore(fs: Schema, m: Bytes, n: nat)
    requires 0 < n <= |fs| && (forall i :: 0 <= i < n ==> fs[i].IntField?) && Width(fs, n) <= |m|
    ensures Width(fs, n - 1) <= |m| && Numbers(fs, m, n) == Numbers(fs, m, n - 1) + [IntValue(NumberAt(fs, m, n - 1))]
  {
  }

  /** The integer read last. */
  function LastNumber(fs: Schema, m: Bytes, n: nat): nat
    requires n <= |fs| && (forall i :: 0 <= i < n ==> fs[i].IntField?) && Width(fs, n) <= |m|
  {
    if n == 0 then 0 else NumberAt(fs, m, n - 1)
  }

  /** Integers at the beginning take their widths, or the message is too short. */
  lemma {:induction false} NumbersFirst(fs: Schema, m: Bytes, n: nat)
    requires n <= |fs| && Productive(fs) && forall i :: 0 <= i < n ==> fs[i].IntField?
    ensures Productive(fs[n..])
    ensures Decode(fs, m, 0, 0) ==
            if Width(fs, n) > |m| then TooShort
            else Prepend(Numbers(fs, m, n), Decode(fs[n..], m, Width(fs, n), LastNumber(fs, m, n)))
    decreases n
  {
    if n == 0 {
      assert fs[0..] == fs;
      var r := Decode(fs, m, 0, 0);
      assert r.Decoded? ==> [] + r.value == r.value;
    } else {
      NumbersFirst(fs, m, n - 1);
      if Width(fs, n - 1) <= |m| {
        IntAt(fs, n - 1, m, Width(fs, n - 1), LastNumber(fs, m, n - 1));
        if Width(fs, n) <= |m| {
          OneNumberMore(fs, m, n);
          PrependTwice(Numbers(fs, m, n - 1), [IntValue(NumberAt(fs, m, n - 1))],
                       Decode(fs[n..], m, Width(fs, n), NumberAt(fs, m, n - 1)));
        }
      }
    }
  }

  lemma {:induction false} TextAt(fs: Schema, k: nat, m: Bytes, pos: nat, length: nat)
    requires k < |fs| && Productive(fs[k..]) && fs[k].TextField? && pos <= |m| && |m| + length < TWO63
    ensures Productive(fs[k + 1..])
    ensures Decode(fs[k..], m, pos, length) ==
            if pos + length > |m| then TooShort
            else Prepend([TextValue(m[pos..pos + length])], Decode(fs[k + 1..], m, pos + length, length))
  {
    assert fs[k..][1..] == fs[k + 1..];
    assert Wrap(pos + Wrap(length)) == pos + length;
  }

  lemma {:induction false} DataAt(fs: Schema, k: nat, m: Bytes, pos: nat, value: nat)
    requires k == |fs| - 1 && Productive(fs[k..]) && fs[k].DataField? && pos <= |m|
    ensures Decode(fs[k..], m, pos, value) == Decoded([DataValue(m[pos..])], |m|)
  {
    assert fs[k..] == [DataField] && fs[k..][1..] == [];
    assert [DataValue(m[pos..])] + [] == [DataValue(m[pos..])];
  }

  lemma {:induction false} OneByte(m: Bytes, pos: nat)
    requires pos < |m|
    ensures BigEndian(m[pos..pos + 1]) == m[pos]
  {
    var one := m[pos..pos + 1];
    assert one[..0] == [] && BigEndian(one) == BigEndian(one[..0]) * 256 + one[0];
  }

  lemma {:induction false} AppendWidths()
    ensures Width(APPEND_V2, 1) == 1 && Width(APPEND_V2, 2) == 2 && Width(APPEND_V2, 3) == 10
    ensures Width(APPEND, 1) == 1 && Width(APPEND, 2) == 2 && Width(APPEND, 3) == 6 && Width(APPEND, 4) == 14
  {
    assert Width(APPEND, 3) == Width(APPEND, 2) + 4;
  }

  /** An append by its bytes: ten before the data if the first of them is 2, and otherwise fourteen. */
  lemma {:induction false} AppendByPosition(m: Bytes)
    requires 1 <= |m| < TWO63
    ensures DecodeAppend(m) ==
            if |m| < (if m[0] == 2 then 10 else 14) then TooShort
            else if m[0] == 2 then Decoded(Append(m[1], 0, BigEndian(m[2..10]), m[10..]), |m|)
            else Decoded(Append(m[1], BigEndian(m[2..6]), BigEndian(m[6..14]), m[14..]), |m|)
  {
    LayoutsAreProductive();
    AppendWidths();
    if m[0] == 2 {
      NumbersFirst(APPEND_V2, m, 3);
      if |m| >= 10 {
        OneByte(m, 1);
        DataAt(APPEND_V2, 3, m, 10, Numbers(APPEND_V2, m, 3)[2].n);
      }
    } else {
      NumbersFirst(APPEND, m, 4);
      if |m| >= 14 {
        OneByte(m, 1);
        DataAt(APPEND, 4, m, 14, Numbers(APPEND, m, 4)[3].n);
      }
    }
  }

  lemma {:induction false} BroadcastWidths()
    ensures Width(BROADCAST, 2) == 2 && Width(BROADCAST, 3) == 6
  {
    assert Width(BROADCAST, 2) == Width(BROADCAST, 1) + 1;
  }

  /** A broadcast is what stands behind the first six bytes. */
  lemma {:induction false} BroadcastByPosition(m: Bytes)
    requires |m| < TWO63
    ensures DecodeBroadcast(m) == if |m| < 6 then TooShort else Decoded(m[6..], |m|)
  {
    LayoutsAreProductive();
    BroadcastWidths();
    NumbersFirst(BROADCAST, m, 3);
    if |m| >= 6 {
      DataAt(BROADCAST, 3, m, 6, Numbers(BROADCAST, m, 3)[2].n);
    }
  }

  lemma {:induction false} InitWidths()
    ensures Width(INIT_V2, 2) == Width(INIT, 2) == 2 && Width(INIT_V2, 3) == Width(INIT, 3) == 4
    ensures Width(INIT_V2, 4) == Width(INIT, 4) == 8 && Width(INIT_V2, 5) == Width(INIT, 5) == 9
    ensures Width(INIT_V2, 6) == 17 && Width(INIT_V2, 7) == 18
    ensures Width(INIT, 6) == 13 && Width(INIT, 7) == 21 && Width(INIT, 8) == 25
  {
    assert Width(INIT_V2, 2) == Width(INIT_V2, 1) + 1 && Width(INIT, 2) == Width(INIT, 1) + 1;
    assert Width(INIT_V2, 3) == Width(INIT_V2, 2) + 2 && Width(INIT, 3) == Width(INIT, 2) + 2;
    assert Width(INIT_V2, 4) == Width(INIT_V2, 3) + 4 && Width(INIT, 4) == Width(INIT, 3) + 4;
    assert Width(INIT_V2, 5) == Width(INIT_V2, 4) + 1 && Width(INIT, 5) == Width(INIT, 4) + 1;
    assert Width(INIT_V2, 6) == Width(INIT_V2, 5) + 8 && Width(INIT, 6) == Width(INIT, 5) + 4;
    assert Width(INIT, 7) == Width(INIT, 6) + 8;
  }

  /** The name of the document and the data end an init message. */
  lemma {:induction false} DocumentAt(fs: Schema, k: nat, m: Bytes, pos: nat, length: nat)
    requires k + 2 == |fs| && fs[k].TextField? && fs[k + 1].DataField? && Productive(fs[k..])
    requires pos <= |m| && |m| + length < TWO63
    ensures Decode(fs[k..], m, pos, length) ==
            if pos + length > |m| then TooShort
            else Decoded([TextValue(m[pos..pos + length]), DataValue(m[pos + length..])], |m|)
  {
    TextAt(fs, k, m, pos, length);
    if pos + length <= |m| {
      DataAt(fs, k + 1, m, pos + length, length);
      var name, data := TextValue(m[pos..pos + length]), DataValue(m[pos + length..]);
      assert [name] + [data] == [name, data];
    }
  }

  /** The fields of an init message by their places. */
  lemma {:induction false} InitV2At(m: Bytes)
    requires |m| + 256 <= TWO63 && Productive(INIT_V2) && Width(INIT_V2, 7) == 18
    ensures Decode(INIT_V2, m, 0, 0) ==
            if |m| < 18 then TooShort
            else
              var length: nat := m[17];
              if |m| < 18 + length then TooShort
              else Decoded(Numbers(INIT_V2, m, 7) + [TextValue(m[18..18 + length]), DataValue(m[18 + length..])], |m|)
  {
    NumbersFirst(INIT_V2, m, 7);
    if |m| >= 18 {
      assert Width(INIT_V2, 6) == 17;
      OneByte(m, 17);
      DocumentAt(INIT_V2, 7, m, 18, m[17]);
    }
  }

  lemma {:induction false} InitV3At(m: Bytes)
    requires |m| + 0x1_0000_0000 <= TWO63 && Productive(INIT) && Width(INIT, 8) == 25
    ensures Decode(INIT, m, 0, 0) ==
            if |m| < 25 then TooShort
            else
              var end := 25 + BigEndian(m[21..25]);
              if |m| < end then TooShort
              else Decoded(Numbers(INIT, m, 8) + [TextValue(m[25..end]), DataValue(m[end..])], |m|)
  {
    NumbersFirst(INIT, m, 8);
    if |m| >= 25 {
      assert Width(INIT, 7) == 21;
      FourBytes(m, 21);
      DocumentAt(INIT, 8, m, 25, BigEndian(m[21..25]));
    }
  }

  lemma {:induction false} InitNumbers(m: Bytes)
    requires 25 <= |m| && Width(INIT, 8) == 25
    ensures var vs := Numbers(INIT, m, 8);
            && vs[1].n == m[1] && vs[2].n == BigEndian(m[2..4]) && vs[3].n == BigEndian(m[4..8]) && vs[4].n == m[8]
            && vs[5].n == BigEndian(m[9..13]) && vs[6].n == BigEndian(m[13..21])
  {
    InitWidths();
    OneByte(m, 1);
    OneByte(m, 8);
  }

  /** Version 2 has 18 bytes before the name of the document, the last of them its length. */
  lemma {:induction false} InitV2ByPosition(m: Bytes)
    requires 4 < |m| && |m| + 256 <= TWO63 && m[0] == 1 && m[2] == 0 && m[3] == 2
    ensures DecodeInit(m) ==
            if |m| < 18 then TooShort
            else
              var length: nat := m[17];
              if |m| < 18 + length then TooShort
              else Decoded(Init(m[1], BigEndian(m[2..4]), BigEndian(m[4..8]), m[8], 0, BigEndian(m[9..17]),
                                m[18..18 + length], m[18 + length..]), |m|)
  {
    LayoutsAreProductive();
    InitWidths();
    InitV2At(m);
    if |m| >= 18 {
      OneByte(m, 1);
      OneByte(m, 8);
    }
  }

  /** Every other message is read as version 3, with 25 bytes before the name, the last four its length. */
  lemma {:induction false} InitV3ByPosition(m: Bytes)
    requires |m| + 0x1_0000_0000 <= TWO63 && !(4 < |m| && m[0] == 1 && m[2] == 0 && m[3] == 2)
    ensures DecodeInit(m) ==
            if |m| < 25 then TooShort
            else
              var end := 25 + BigEndian(m[21..25]);
              if |m| < end then TooShort
              else Decoded(Init(m[1], BigEndian(m[2..4]), BigEndian(m[4..8]), m[8], BigEndian(m[9..13]),
                                BigEndian(m[13..21]), m[25..end], m[end..]), |m|)
  {
    LayoutsAreProductive();
    InitWidths();
    InitV3At(m);
    if |m| >= 25 {
      InitNumbers(m);
    }
  }

  lemma {:induction false} FourBytes(m: Bytes, pos: nat)
    requires pos + 4 <= |m|
    ensures BigEndian(m[pos..pos + 4]) < 0x1_0000_0000
  {
    assert Power256(4) == 256 * Power256(3) && Power256(3) == 256 * Power256(2) && Power256(2) == 65536;
  }

  lemma {:induction false} SetKeyWidths()
    ensures Width(SET_KEY, 1) == 1 && Width(SET_KEY, 2) == 2 && Width(SET_KEY, 3) == 4 && Width(SET_KEY, 4) == 5
    ensures Width(SET_KEY, 5) == 9 && Width(SET_KEY, 6) == 13 && Width(SET_KEY, 7) == 17
  {
    assert Width(SET_KEY, 2) == Width(SET_KEY, 1) + 1;
    assert Width(SET_KEY, 3) == Width(SET_KEY, 2) + 2;
    assert Width(SET_KEY, 4) == Width(SET_KEY, 3) + 1;
    assert Width(SET_KEY, 5) == Width(SET_KEY, 4) + 4;
    assert Width(SET_KEY, 6) == Width(SET_KEY, 5) + 4;
  }

  /** The value of a key, behind its length. */
  lemma {:induction false} ValueAt(m: Bytes, pos: nat, value: nat)
    requires pos <= |m| && |m| + 0x1_0000_0000 <= TWO63 && Productive(SET_KEY[8..])
    ensures Decode(SET_KEY[8..], m, pos, value) ==
            if |m| < pos + 4 then TooShort
            else
              var k := BigEndian(m[pos..pos + 4]);
              if |m| < pos + 4 + k then TooShort
              else Decoded([IntValue(k), TextValue(m[pos + 4..pos + 4 + k])], pos + 4 + k)
  {
    IntAt(SET_KEY, 8, m, pos, value);
    if pos + 4 <= |m| {
      FourBytes(m, pos);
      var k := BigEndian(m[pos..pos + 4]);
      TextAt(SET_KEY, 9, m, pos + 4, k);
      if pos + 4 + k <= |m| {
        assert SET_KEY[10..] == [];
        var text := TextValue(m[pos + 4..pos + 4 + k]);
        assert [IntValue(k)] + ([text] + []) == [IntValue(k), text];
      }
    }
  }

  lemma {:induction false} KeyAt(m: Bytes, n: nat)
    requires 17 <= |m| && |m| + 0x1_0000_0000 <= TWO63 && n < 0x1_0000_0000 && Productive(SET_KEY[7..])
    ensures Decode(SET_KEY[7..], m, 17, n) ==
            if |m| < 21 + n then TooShort
            else
              var k := BigEndian(m[17 + n..21 + n]);
              if |m| < 21 + n + k then TooShort
              else Decoded([TextValue(m[17..17 + n]), IntValue(k), TextValue(m[21 + n..21 + n + k])], 21 + n + k)
  {
    TextAt(SET_KEY, 7, m, 17, n);
    if 17 + n <= |m| {
      ValueAt(m, 17 + n, n);
      if 21 + n <= |m| {
        var k := BigEndian(m[17 + n..21 + n]);
        if 21 + n + k <= |m| {
          var name, text := TextValue(m[17..17 + n]), TextValue(m[21 + n..21 + n + k]);
          assert [name] + [IntValue(k), text] == [name, IntValue(k), text];
        }
      }
    }
  }

  lemma {:induction false} SetKeyNumbers(m: Bytes)
    requires 17 <= |m| && Width(SET_KEY, 7) == 17
    ensures var vs := Numbers(SET_KEY, m, 7);
            && vs[1].n == m[1] && vs[2].n == BigEndian(m[2..4]) && vs[3].n == m[4] && vs[4].n == BigEndian(m[5..9])
            && vs[5].n == BigEndian(m[9..13]) && LastNumber(SET_KEY, m, 7) == BigEndian(m[13..17])
  {
    SetKeyWidths();
    OneByte(m, 1);
    OneByte(m, 4);
  }

  /** Name and value of a key follow their lengths; the first is at 13. */
  lemma {:induction false} SetKeyByPosition(m: Bytes)
    requires |m| + 0x1_0000_0000 <= TWO63
    ensures DecodeSetKey(m) ==
            if |m| < 17 then TooShort
            else
              var name := 17 + BigEndian(m[13..17]);
              if |m| < name + 4 then TooShort
              else
                var end := name + 4 + BigEndian(m[name..name + 4]);
                if |m| < end then TooShort
                else Decoded(SetKey(m[1], BigEndian(m[2..4]), m[4], BigEndian(m[5..9]),
                                    Store.Key(BigEndian(m[9..13]), m[17..name], m[name + 4..end])), end)
  {
    LayoutsAreProductive();
    SetKeyWidths();
    NumbersFirst(SET_KEY, m, 7);
    if |m| >= 17 {
      SetKeyNumbers(m);
      FourBytes(m, 13);
      KeyAt(m, BigEndian(m[13..17]));
    }
  }

  /** And so they are sent. */
  lemma {:induction false} SetKeyBytes(m: SetKey)
    requires ValidSetKey(m) && m.more < 256
    ensures Typed(SET_KEY, SetKeyValues(m))
    ensures Encode(SET_KEY, SetKeyValues(m)) ==
            [0x03, m.more] + Digits(m.requestId, 2) + Digits(m.lifetime, 1) + Digits(m.oldVersion, 4) +
            Digits(m.key.version, 4) + Digits(|m.key.name|, 4) + m.key.name + Digits(|m.key.value|, 4) + m.key.value
  {
    var vs := SetKeyValues(m);
    assert Power256(1) == 256;
    EncodedInOrder(SET_KEY, vs);
    Head(SET_KEY, vs, 0x03, m.more);
    forall k | 2 <= k < 10 ensures Front(SET_KEY, vs, k + 1) == Front(SET_KEY, vs, k) + EncodeField(SET_KEY[k], vs[k]) {
      FrontStep(SET_KEY, vs, k);
    }
  }
}
