/**
 Messages on the wire, end to end: structs, their encodings, the frames they travel in, and
 what the other side makes of them.
 */
module Wire {
  import opened Base
  import opened Codec
  import opened Messages
  import opened Framing
  import Protocol
  import Store

  // ----- Structs ------------------------------------------------------------------------

  /** Both init structs in one; `generation` is 0 in version 2. */
  datatype Init = Init(more: nat, version: nat, maxSize: nat, mode: nat, generation: nat, offset: nat,
                       docId: Bytes, data: Bytes)

  datatype Append = Append(more: nat, generation: nat, offset: nat, data: Bytes)

  const INIT_TYPE := 0x01
  const APPEND_V2_TYPE := 0x02
  const BROADCAST_TYPE := 0x04
  const APPEND_TYPE := 0x05
  const ERROR_TYPE := 0x80
  const ACK_NACK_TYPE := 0x81
  const SET_KEY_ACK_NACK_TYPE := 0x83

  function InitV2Values(m: Init): seq<Value> {
    [IntValue(INIT_TYPE), IntValue(m.more), IntValue(m.version), IntValue(m.maxSize), IntValue(m.mode),
     IntValue(m.offset), IntValue(|m.docId|), TextValue(m.docId), DataValue(m.data)]
  }

  function InitV3Values(m: Init): seq<Value> {
    [IntValue(INIT_TYPE), IntValue(m.more), IntValue(m.version), IntValue(m.maxSize), IntValue(m.mode),
     IntValue(m.generation), IntValue(m.offset), IntValue(|m.docId|), TextValue(m.docId), DataValue(m.data)]
  }

  function AppendV2Values(m: Append): seq<Value> {
    [IntValue(APPEND_V2_TYPE), IntValue(m.more), IntValue(m.offset), DataValue(m.data)]
  }

  function AppendV3Values(m: Append): seq<Value> {
    [IntValue(APPEND_TYPE), IntValue(m.more), IntValue(m.generation), IntValue(m.offset), DataValue(m.data)]
  }

  predicate IsU8(n: nat) { n < Power256(1) }
  predicate IsU16(n: nat) { n < Power256(2) }
  predicate IsU32(n: int) { 0 <= n < Power256(4) }
  predicate IsU64(n: nat) { n < Power256(8) }

  predicate ValidInit(m: Init) {
    IsU8(m.more) && IsU16(m.version) && IsU32(m.maxSize) && IsU8(m.mode) && IsU32(m.generation) && IsU64(m.offset)
  }

  predicate ValidAppend(m: Append) { IsU8(m.more) && IsU32(m.generation) && IsU64(m.offset) }

  /** Far beyond the memory of any machine, and small enough for positions to be Go ints. */
  const MAX_PAYLOAD: nat := 0x400_0000_0000_0000

  predicate Bounded(vs: seq<Value>) {
    forall i :: 0 <= i < |vs| ==>
      match vs[i]
      case TextValue(text) => |text| <= MAX_PAYLOAD
      case DataValue(data) => |data| <= MAX_PAYLOAD
      case _ => true
  }

  // ----- One message, one layout --------------------------------------------------------

  lemma {:induction false} EncodeIsShort(fs: Schema, vs: seq<Value>)
    requires Typed(fs, vs) && Bounded(vs)
    requires forall i :: 0 <= i < |fs| ==> !fs[i].ListField? && (fs[i].IntField? ==> fs[i].size <= 8)
    ensures |Encode(fs, vs)| <= |fs| * MAX_PAYLOAD
    decreases |fs|
  {
    if fs != [] {
      assert forall i :: 0 <= i < |fs[1..]| ==> fs[1..][i] == fs[i + 1] && vs[1..][i] == vs[i + 1];
      EncodeIsShort(fs[1..], vs[1..]);
    }
  }

  /** A plain message survives encoding and decoding exactly when its lengths agree. */
  lemma {:induction false} PlainRoundTrip(fs: Schema, vs: seq<Value>)
    requires IsPlain(fs) && TypedAll(fs, vs) && Bounded(vs)
    ensures Typed(fs, vs) && Productive(fs) && Prefixed(fs, 1) && |Encode(fs, vs)| < TWO63
    ensures Decode(fs, Encode(fs, vs), 0, 0) == Decoded(vs, |Encode(fs, vs)|) <==> LengthsAgree(fs, vs)
  {
    WellFormedIsProductive(fs, false, true);
    assert forall i :: 0 <= i < |fs| ==> FieldFits(fs, i, true);
    TypedPointwise(fs, vs);
    ConsistentPointwise(fs, vs, 0);
    EncodeIsShort(fs, vs);
    assert |fs| * MAX_PAYLOAD <= 10 * MAX_PAYLOAD;
    RoundTripIffConsistent(fs, vs);
  }

  /** The error message takes the length of its text from the error code: it survives only if they happen to agree. */
  lemma {:induction false} ErrorSurvivesIff(more: nat, code: nat, description: Bytes)
    requires IsU8(more) && IsU16(code) && |description| <= MAX_PAYLOAD
    ensures var vs := [IntValue(ERROR_TYPE), IntValue(more), IntValue(code), TextValue(description)];
            && Typed(ERROR, vs) && Productive(ERROR)
            && (Decode(ERROR, Encode(ERROR, vs), 0, 0) == Decoded(vs, |Encode(ERROR, vs)|) <==> |description| == code)
  {
    var vs := [IntValue(ERROR_TYPE), IntValue(more), IntValue(code), TextValue(description)];
    assert Power256(1) == 256;
    ReplyLayouts();
    PlainRoundTrip(ERROR, vs);
    assert ERROR[3].TextField? && vs[3].text == description && vs[2].n == code;
  }

  // ----- The first bytes of an encoding -------------------------------------------------

  lemma {:induction false} EncodeSplit(fs: Schema, vs: seq<Value>, i: nat)
    requires Typed(fs, vs) && i <= |fs|
    ensures Typed(fs[..i], vs[..i]) && Typed(fs[i..], vs[i..])
    ensures Encode(fs, vs) == Encode(fs[..i], vs[..i]) + Encode(fs[i..], vs[i..])
    decreases i
  {
    if i == 0 {
      assert fs[0..] == fs && vs[0..] == vs;
    } else {
      assert fs[1..][..i - 1] == fs[..i][1..] && vs[1..][..i - 1] == vs[..i][1..];
      assert fs[1..][i - 1..] == fs[i..] && vs[1..][i - 1..] == vs[i..];
      EncodeSplit(fs[1..], vs[1..], i - 1);
      var first, front, rest := EncodeField(fs[0], vs[0]), Encode(fs[..i][1..], vs[..i][1..]), Encode(fs[i..], vs[i..]);
      assert Encode(fs[..i], vs[..i]) == first + front;
      assert first + (front + rest) == first + front + rest;
    }
  }

  /** A message is its type, its flag and the rest. */
  lemma {:induction false} TwoHeads(fs: Schema, vs: seq<Value>)
    requires |fs| >= 2 && fs[0] == U8 && fs[1] == U8 && Typed(fs, vs)
    ensures TypedField(U8, vs[0]) && TypedField(U8, vs[1]) && vs[0].n < 256 && vs[1].n < 256
    ensures Typed(fs[2..], vs[2..])
    ensures Encode(fs, vs) == [vs[0].n, vs[1].n] + Encode(fs[2..], vs[2..])
  {
    assert fs[1..][0] == U8 && vs[1..][0] == vs[1] && fs[1..][1..] == fs[2..] && vs[1..][1..] == vs[2..];
    assert Power256(1) == 256;
    OneInt(vs[0]);
    OneInt(vs[1]);
    assert Typed(fs[1..], vs[1..]) && Typed(fs[1..][1..], vs[1..][1..]);
    assert Encode(fs[1..], vs[1..]) == EncodeField(U8, vs[1]) + Encode(fs[2..], vs[2..]);
    assert Encode(fs, vs) == EncodeField(U8, vs[0]) + (EncodeField(U8, vs[1]) + Encode(fs[2..], vs[2..]));
  }

  /** Byte 0 is the type, byte 1 the flag. */
  lemma {:induction false} FirstBytes(fs: Schema, vs: seq<Value>)
    requires |fs| >= 2 && fs[0] == U8 && fs[1] == U8 && Typed(fs, vs)
    ensures |Encode(fs, vs)| >= 2
    ensures vs[0].IntValue? && vs[1].IntValue? && Encode(fs, vs)[0] == vs[0].n && Encode(fs, vs)[1] == vs[1].n
    ensures |fs| >= 3 && fs[2] == U16 ==>
              && vs[2].IntValue? && |Encode(fs, vs)| >= 4
              && Encode(fs, vs)[2] == vs[2].n / 256 && Encode(fs, vs)[3] == vs[2].n % 256
  {
    TwoHeads(fs, vs);
    if |fs| >= 3 && fs[2] == U16 {
      assert fs[2..][0] == U16 && vs[2..][0] == vs[2];
      assert Power256(2) == 65536;
      TwoBytes(vs[2]);
      assert Encode(fs[2..], vs[2..]) == Digits(vs[2].n, 2) + Encode(fs[2..][1..], vs[2..][1..]);
    }
  }

  lemma {:induction false} OneInt(v: Value)
    requires TypedField(U8, v)
    ensures v.n < 256 && Digits(v.n, 1) == [v.n]
  {
    assert Power256(1) == 256;
    assert Digits(v.n, 1) == Digits(v.n / 256, 0) + [v.n % 256];
  }

  lemma {:induction false} TwoBytes(v: Value)
    requires TypedField(U16, v)
    ensures v.n < 65536 && Digits(v.n, 2) == [v.n / 256, v.n % 256]
  {
    assert Power256(2) == 65536;
    assert Digits(v.n, 2) == Digits(v.n / 256, 1) + [v.n % 256];
    assert Digits(v.n / 256, 1) == Digits(v.n / 256 / 256, 0) + [v.n / 256 % 256];
  }

  /** Setting byte 1 of an encoded message is encoding the message with that flag. */
  lemma {:induction false} FlagIsSecondField(fs: Schema, vs: seq<Value>, flag: Byte)
    requires |fs| >= 2 && fs[0] == U8 && fs[1] == U8 && Typed(fs, vs)
    ensures Typed(fs, vs[1 := IntValue(flag)]) && |Encode(fs, vs)| >= 2
    ensures Encode(fs, vs)[1 := flag] == Encode(fs, vs[1 := IntValue(flag)])
  {
    var vs' := vs[1 := IntValue(flag)];
    assert Power256(1) == 256;
    TypedPointwise(fs, vs);
    TypedPointwise(fs, vs');
    TwoHeads(fs, vs);
    TwoHeads(fs, vs');
    assert vs[2..] == vs'[2..];
  }

  // ----- Through the frames -------------------------------------------------------------

  /** What governs the fields after the flag is never the flag. */
  lemma {:induction false} FlagGovernsNothing(fs: Schema, vs: seq<Value>, flag: Byte)
    requires IsMessage(fs) && Typed(fs, vs) && Consistent(fs, vs, 0)
    ensures Typed(fs, vs[1 := IntValue(flag)]) && Consistent(fs, vs[1 := IntValue(flag)], 0)
  {
    var vs' := vs[1 := IntValue(flag)];
    FlagIsSecondField(fs, vs, flag);
    assert vs'[1..][1..] == vs[1..][1..] && vs[1..][0] == vs[1] && fs[1..][0] == U8;
    var fs2, vs2 := fs[1..][1..], vs[1..][1..];
    TypedPointwise(fs, vs);
    assert TypedField(fs[1], vs[1]);
    assert Typed(fs[1..], vs[1..]) && Consistent(fs[1..], vs[1..], vs[0].n);
    assert Typed(fs2, vs2) && Consistent(fs2, vs2, vs[1].n);
    assert WellFormed(fs[1..], true, true);
    assert fs2 != [] ==> fs2[0] == fs[2];
    assert WellFormed(fs2, true, true);
    HeadIgnoresGovernor(fs2, vs2, vs[1].n, flag);
    assert vs'[1..][0] == IntValue(flag) && Governor(vs'[1..][0], vs[0].n) == flag;
    assert ConsistentField(fs[1..][0], vs'[1..][0], vs[0].n);
    assert Consistent(fs[1..], vs'[1..], vs[0].n);
  }

  lemma {:induction false} HeadIgnoresGovernor(fs: Schema, vs: seq<Value>, value: nat, value': nat)
    requires Typed(fs, vs) && WellFormed(fs, true, true)
    requires fs != [] ==> !fs[0].TextField? && (fs[0].ListField? ==> fs[0].toEnd)
    ensures Consistent(fs, vs, value) == Consistent(fs, vs, value')
  {
    if fs != [] && !fs[0].IntField? {
      assert fs[1..] == [];
    }
  }

  /** What the other side reads for an encoded message. */
  function Received(fs: Schema, vs: seq<Value>, maxSize: nat): Bytes
    requires IsMessage(fs) && Typed(fs, vs)
  {
    FirstBytes(fs, vs);
    Flagged(Encode(fs, vs), maxSize)
  }

  /**
   Any message with agreeing lengths, encoded, split into frames of any workable size, joined and
   decoded, comes out as it went in, but for the flag.
   */
  lemma {:induction false} MessageTravels(fs: Schema, vs: seq<Value>, maxSize: nat)
    requires IsMessage(fs) && Typed(fs, vs) && Consistent(fs, vs, 0) && |Encode(fs, vs)| < TWO63
    requires |Encode(fs, vs)| <= maxSize || maxSize >= 3
    ensures |Encode(fs, vs)| >= 2 && Productive(fs)
    ensures var flag := if |Encode(fs, vs)| > maxSize then 1 else 0;
            && ReadMessage(Frames(Encode(fs, vs), maxSize)) == Message(Received(fs, vs, maxSize), [])
            && Decode(fs, Received(fs, vs, maxSize), 0, 0) == Decoded(vs[1 := IntValue(flag)], |Encode(fs, vs)|)
  {
    FirstBytes(fs, vs);
    var bytes := Encode(fs, vs);
    var flag: Byte := if |bytes| > maxSize then 1 else 0;
    FramesReadBack(bytes, maxSize, []);
    assert Frames(bytes, maxSize) + [] == Frames(bytes, maxSize);
    FlagIsSecondField(fs, vs, flag);
    FlagGovernsNothing(fs, vs, flag);
    RoundTripIffConsistent(fs, vs[1 := IntValue(flag)]);
  }

  /** The same for a message without lists, with the bytes that tell its kind. */
  lemma {:induction false} PlainTravels(fs: Schema, vs: seq<Value>, maxSize: nat)
    requires IsPlain(fs) && TypedAll(fs, vs) && Bounded(vs) && LengthsAgree(fs, vs) && maxSize >= 3
    ensures Typed(fs, vs) && Productive(fs) && 2 <= |Encode(fs, vs)| < TWO63
    ensures var b := Received(fs, vs, maxSize);
            && ReadMessage(Frames(Encode(fs, vs), maxSize)) == Message(b, [])
            && 2 <= |b| == |Encode(fs, vs)|
            && vs[0].IntValue? && b[0] == vs[0].n
            && Decode(fs, b, 0, 0) ==
               Decoded(vs[1 := IntValue(if |Encode(fs, vs)| > maxSize then 1 else 0)], |Encode(fs, vs)|)
  {
    PlainRoundTrip(fs, vs);
    ConsistentPointwise(fs, vs, 0);
    MessageTravels(fs, vs, maxSize);
    FirstBytes(fs, vs);
  }

  // ----- Init and append, version 2 and version 3 ---------------------------------------

  lemma {:induction false} LayoutsAreProductive()
    ensures Productive(INIT_V2) && Productive(INIT) && Productive(APPEND_V2) && Productive(APPEND)
    ensures Productive(ACK_NACK) && Productive(SET_KEY_ACK_NACK) && Productive(BROADCAST)
    ensures Productive(KEY_INFORMATION) && Productive(SET_KEY)
  {
    InitLayouts(); DataLayouts(); ReplyLayouts(); KeyLayouts();
    forall fs | IsMessage(fs) ensures Productive(fs) {
      WellFormedIsProductive(fs, false, true);
    }
  }

  lemma {:induction false} DecodedTyped(fs: Schema, m: Bytes)
    requires Productive(fs) && |m| < TWO63 && Decode(fs, m, 0, 0).Decoded?
    ensures TypedAll(fs, Decode(fs, m, 0, 0).value)
  {
    DecodedIsEncoded(fs, m, 0, 0);
    TypedPointwise(fs, Decode(fs, m, 0, 0).value);
  }

  /** Both versions of the init message, as one struct. */
  function DecodeInit(m: Bytes): Result<Init>
    requires |m| < TWO63
  {
    LayoutsAreProductive();
    if |m| > 4 && m[0] == INIT_TYPE && m[2] == 0 && m[3] == 2 then
      var r := Decode(INIT_V2, m, 0, 0);
      if r.IsFailure() then r.PropagateFailure()
      else
        DecodedTyped(INIT_V2, m);
        Decoded(InitOfV2(r.value), r.pos)
    else
      var r := Decode(INIT, m, 0, 0);
      if r.IsFailure() then r.PropagateFailure()
      else
        DecodedTyped(INIT, m);
        Decoded(InitOfV3(r.value), r.pos)
  }

  function InitOfV2(vs: seq<Value>): Init
    requires TypedAll(INIT_V2, vs)
  {
    InitV2Types(vs);
    Init(vs[1].n, vs[2].n, vs[3].n, vs[4].n, 0, vs[5].n, vs[7].text, vs[8].data)
  }

  lemma {:induction false} InitV2Types(vs: seq<Value>)
    requires TypedAll(INIT_V2, vs)
    ensures |vs| == 9 && (forall i :: 0 <= i < 7 ==> vs[i].IntValue?) && vs[7].TextValue? && vs[8].DataValue?
  {
    assert forall i :: 0 <= i < 7 ==> INIT_V2[i].IntField?;
    assert TypedField(INIT_V2[7], vs[7]) && TypedField(INIT_V2[8], vs[8]);
    assert forall i :: 0 <= i < 7 ==> TypedField(INIT_V2[i], vs[i]);
  }

  function InitOfV3(vs: seq<Value>): Init
    requires TypedAll(INIT, vs)
  {
    InitV3Types(vs);
    Init(vs[1].n, vs[2].n, vs[3].n, vs[4].n, vs[5].n, vs[6].n, vs[8].text, vs[9].data)
  }

  lemma {:induction false} InitV3Types(vs: seq<Value>)
    requires TypedAll(INIT, vs)
    ensures |vs| == 10 && (forall i :: 0 <= i < 8 ==> vs[i].IntValue?) && vs[8].TextValue? && vs[9].DataValue?
  {
    assert forall i :: 0 <= i < 8 ==> INIT[i].IntField?;
    assert TypedField(INIT[8], vs[8]) && TypedField(INIT[9], vs[9]);
    assert forall i :: 0 <= i < 8 ==> TypedField(INIT[i], vs[i]);
  }

  lemma {:induction false} InitValuesTyped(m: Init)
    requires ValidInit(m) && |m.docId| <= MAX_PAYLOAD && |m.data| <= MAX_PAYLOAD
    ensures IsU8(|m.docId|) ==> TypedAll(INIT_V2, InitV2Values(m)) && LengthsAgree(INIT_V2, InitV2Values(m))
    ensures IsU32(|m.docId|) ==> TypedAll(INIT, InitV3Values(m)) && LengthsAgree(INIT, InitV3Values(m))
    ensures Bounded(InitV2Values(m)) && Bounded(InitV3Values(m))
  {
    assert Power256(1) == 256;
  }

  lemma {:induction false} LongerThanFour(fs: Schema, vs: seq<Value>)
    requires |fs| >= 4 && fs[0] == U8 && fs[1] == U8 && fs[2] == U16 && fs[3] == U32 && Typed(fs, vs)
    ensures |Encode(fs, vs)| > 4
  {
    EncodeSplit(fs, vs, 3);
    FirstBytes(fs[..3], vs[..3]);
    TypedPointwise(fs, vs);
    assert fs[3..][0] == U32 && vs[3..][0] == vs[3];
  }

  /** An init message in the layout of its version, 2 or later. */
  function EncodeInit(m: Init): Bytes
    requires ValidInit(m) && |m.docId| <= MAX_PAYLOAD && |m.data| <= MAX_PAYLOAD
    requires if m.version == 2 then IsU8(|m.docId|) else IsU32(|m.docId|)
    ensures 2 <= |EncodeInit(m)| < TWO63
  {
    InitLayouts();
    InitValuesTyped(m);
    if m.version == 2 then
      PlainRoundTrip(INIT_V2, InitV2Values(m));
      FirstBytes(INIT_V2, InitV2Values(m));
      Encode(INIT_V2, InitV2Values(m))
    else
      PlainRoundTrip(INIT, InitV3Values(m));
      FirstBytes(INIT, InitV3Values(m));
      Encode(INIT, InitV3Values(m))
  }

  /**
   An init message sent in either version through frames of any workable size is decoded to the
   same struct, but for the flag and for the generation, which version 2 does not carry.
   */
  lemma {:induction false} InitTravels(m: Init, maxSize: nat)
    requires ValidInit(m) && |m.docId| <= MAX_PAYLOAD && |m.data| <= MAX_PAYLOAD
    requires if m.version == 2 then IsU8(|m.docId|) else IsU32(|m.docId|)
    requires maxSize >= 3
    ensures var r := ReadMessage(Frames(EncodeInit(m), maxSize));
            && r.Message? && r.rest == [] && |r.data| < TWO63
            && DecodeInit(r.data).Decoded?
            && DecodeInit(r.data).value ==
               m.(more := if |EncodeInit(m)| > maxSize then 1 else 0,
                  generation := if m.version == 2 then 0 else m.generation)
  {
    InitLayouts();
    InitValuesTyped(m);
    var fs, vs := if m.version == 2 then INIT_V2 else INIT, if m.version == 2 then InitV2Values(m) else InitV3Values(m);
    PlainTravels(fs, vs, maxSize);
    FirstBytes(fs, vs);
    LongerThanFour(fs, vs);
    assert Power256(2) == 65536;
    var b := Received(fs, vs, maxSize);
    assert b[0] == INIT_TYPE && b[2] == m.version / 256 && b[3] == m.version % 256;
  }

  /** Version 2 and version 3 of the same init agree on the offset, the document and the data. */
  lemma {:induction false} InitVersionsAgree(m2: Init, m3: Init, maxSize2: nat, maxSize3: nat)
    requires ValidInit(m2) && ValidInit(m3) && m2.version == 2 && m3.version == 3
    requires m2.docId == m3.docId && m2.data == m3.data && m2.offset == m3.offset && m2.mode == m3.mode
    requires |m2.docId| < 256 && |m2.data| <= MAX_PAYLOAD && maxSize2 >= 3 && maxSize3 >= 3
    ensures IsU8(|m2.docId|) && IsU32(|m3.docId|)
    ensures var r2 := ReadMessage(Frames(EncodeInit(m2), maxSize2));
            var r3 := ReadMessage(Frames(EncodeInit(m3), maxSize3));
            && r2.Message? && |r2.data| < TWO63 && DecodeInit(r2.data).Decoded?
            && r3.Message? && |r3.data| < TWO63 && DecodeInit(r3.data).Decoded?
            && var a, b := DecodeInit(r2.data).value, DecodeInit(r3.data).value;
               a.offset == b.offset && a.docId == b.docId && a.data == b.data && a.mode == b.mode
  {
    assert Power256(1) == 256;
    PowerGrows(1, 4);
    InitTravels(m2, maxSize2);
    InitTravels(m3, maxSize3);
  }

  function DecodeAppend(m: Bytes): Result<Append>
    requires 1 <= |m| < TWO63
  {
    LayoutsAreProductive();
    if m[0] == APPEND_V2_TYPE then
      var r := Decode(APPEND_V2, m, 0, 0);
      if r.IsFailure() then r.PropagateFailure()
      else
        DecodedTyped(APPEND_V2, m);
        AppendTypes(APPEND_V2, r.value);
        Decoded(Append(r.value[1].n, 0, r.value[2].n, r.value[3].data), r.pos)
    else
      var r := Decode(APPEND, m, 0, 0);
      if r.IsFailure() then r.PropagateFailure()
      else
        DecodedTyped(APPEND, m);
        AppendTypes(APPEND, r.value);
        Decoded(Append(r.value[1].n, r.value[2].n, r.value[3].n, r.value[4].data), r.pos)
  }

  lemma {:induction false} AppendTypes(fs: Schema, vs: seq<Value>)
    requires (fs == APPEND_V2 || fs == APPEND) && TypedAll(fs, vs)
    ensures |vs| == |fs| && vs[1].IntValue? && vs[2].IntValue?
    ensures if fs == APPEND then vs[3].IntValue? && vs[4].DataValue? else vs[3].DataValue?
  {
    assert TypedField(fs[1], vs[1]) && TypedField(fs[2], vs[2]) && TypedField(fs[3], vs[3]);
    assert fs == APPEND ==> TypedField(fs[4], vs[4]);
  }

  function EncodeAppend(m: Append, v2: bool): Bytes
    requires ValidAppend(m) && |m.data| <= MAX_PAYLOAD
    ensures 2 <= |EncodeAppend(m, v2)| < TWO63
  {
    DataLayouts();
    assert Power256(1) == 256;
    var fs, vs := if v2 then APPEND_V2 else APPEND, if v2 then AppendV2Values(m) else AppendV3Values(m);
    PlainRoundTrip(fs, vs);
    FirstBytes(fs, vs);
    Encode(fs, vs)
  }

  /** An append in either version travels through frames of any workable size. */
  lemma {:induction false} AppendTravels(m: Append, v2: bool, maxSize: nat)
    requires ValidAppend(m) && |m.data| <= MAX_PAYLOAD && maxSize >= 3
    ensures var r := ReadMessage(Frames(EncodeAppend(m, v2), maxSize));
            && r.Message? && r.rest == [] && 1 <= |r.data| < TWO63
            && DecodeAppend(r.data).Decoded?
            && DecodeAppend(r.data).value ==
               m.(more := if |EncodeAppend(m, v2)| > maxSize then 1 else 0,
                  generation := if v2 then 0 else m.generation)
  {
    DataLayouts();
    assert Power256(1) == 256;
    if v2 {
      PlainTravels(APPEND_V2, AppendV2Values(m), maxSize);
    } else {
      PlainTravels(APPEND, AppendV3Values(m), maxSize);
    }
  }

  // ----- Set key and broadcast ----------------------------------------------------------

  datatype SetKey = SetKey(more: nat, requestId: nat, lifetime: nat, oldVersion: nat, key: Store.Key)

  const SET_KEY_TYPE := 0x03

  predicate ValidSetKey(m: SetKey) {
    && IsU8(m.more) && IsU16(m.requestId) && IsU8(m.lifetime) && IsU32(m.oldVersion)
    && IsU32(m.key.version) && IsU32(|m.key.name|) && IsU32(|m.key.value|)
  }

  function SetKeyValues(m: SetKey): seq<Value>
    requires ValidSetKey(m)
  {
    [IntValue(SET_KEY_TYPE), IntValue(m.more), IntValue(m.requestId), IntValue(m.lifetime), IntValue(m.oldVersion),
     IntValue(m.key.version), IntValue(|m.key.name|), TextValue(m.key.name), IntValue(|m.key.value|), TextValue(m.key.value)]
  }

  lemma {:induction false} SetKeyTypes(vs: seq<Value>)
    requires TypedAll(SET_KEY, vs)
    ensures |vs| == 10 && (forall i :: 0 <= i < 7 ==> vs[i].IntValue?)
    ensures vs[7].TextValue? && vs[8].IntValue? && vs[9].TextValue?
  {
    assert forall i :: 0 <= i < 10 ==> TypedField(SET_KEY[i], vs[i]);
    assert forall i :: 0 <= i < 7 ==> SET_KEY[i].IntField?;
  }

  function DecodeSetKey(m: Bytes): Result<SetKey>
    requires |m| < TWO63
  {
    LayoutsAreProductive();
    var r := Decode(SET_KEY, m, 0, 0);
    if r.IsFailure() then r.PropagateFailure()
    else
      DecodedTyped(SET_KEY, m);
      SetKeyTypes(r.value);
      Decoded(SetKey(r.value[1].n, r.value[2].n, r.value[3].n, r.value[4].n,
                     Store.Key(r.value[5].n, r.value[7].text, r.value[9].text)), r.pos)
  }

  /** The data of a broadcast, whatever length is announced. */
  function DecodeBroadcast(m: Bytes): Result<Bytes>
    requires |m| < TWO63
  {
    LayoutsAreProductive();
    var r := Decode(BROADCAST, m, 0, 0);
    if r.IsFailure() then r.PropagateFailure()
    else
      DecodedTyped(BROADCAST, m);
      assert TypedField(BROADCAST[3], r.value[3]);
      Decoded(r.value[3].data, r.pos)
  }

  /** A request to set a key travels through frames of any workable size. */
  lemma {:induction false} SetKeyTravels(m: SetKey, maxSize: nat)
    requires ValidSetKey(m) && |m.key.name| <= MAX_PAYLOAD && |m.key.value| <= MAX_PAYLOAD && maxSize >= 3
    ensures var vs := SetKeyValues(m);
            && Typed(SET_KEY, vs) && |Encode(SET_KEY, vs)| >= 2
            && var r := ReadMessage(Frames(Encode(SET_KEY, vs), maxSize));
               && r.Message? && r.rest == [] && |r.data| < TWO63
               && DecodeSetKey(r.data).Decoded?
               && DecodeSetKey(r.data).value == m.(more := if |Encode(SET_KEY, vs)| > maxSize then 1 else 0)
  {
    KeyLayouts();
    LayoutsAreProductive();
    assert Power256(1) == 256;
    PlainTravels(SET_KEY, SetKeyValues(m), maxSize);
  }

  // ----- The messages a connection is sent ----------------------------------------------

  predicate Encodable(m: Protocol.Message) {
    match m
    case AppendMsg(offset, data) => IsU64(offset) && |data| <= MAX_PAYLOAD
    case AckNackMsg(ack, length) => IsU16(ack) && IsU64(length)
    case BroadcastMsg(payload) => |payload| <= MAX_PAYLOAD
    case SetKeyAckNackMsg(_, requestId) => IsU16(requestId)
    case ErrorMsg(_) => false
  }

  function LayoutOf(version: nat, m: Protocol.Message): Schema
    requires !m.ErrorMsg?
  {
    match m
    case AppendMsg(_, _) => if version < 3 then APPEND_V2 else APPEND
    case AckNackMsg(_, _) => ACK_NACK
    case BroadcastMsg(_) => BROADCAST
    case SetKeyAckNackMsg(_, _) => SET_KEY_ACK_NACK
  }

  /** The struct that is queued for a message; the generation is always 0. */
  function ValuesOf(version: nat, m: Protocol.Message): seq<Value>
    requires !m.ErrorMsg?
  {
    match m
    case AppendMsg(offset, data) =>
      if version < 3 then AppendV2Values(Append(0, 0, offset, data)) else AppendV3Values(Append(0, 0, offset, data))
    case AckNackMsg(ack, length) => [IntValue(ACK_NACK_TYPE), IntValue(0), IntValue(ack), IntValue(length)]
    case BroadcastMsg(payload) =>
      [IntValue(BROADCAST_TYPE), IntValue(0), IntValue(|payload| % 0x1_0000_0000), DataValue(payload)]
    case SetKeyAckNackMsg(ok, requestId) =>
      [IntValue(SET_KEY_ACK_NACK_TYPE), IntValue(0), IntValue(if ok then 1 else 0), IntValue(requestId)]
  }

  lemma {:induction false} AppendIsTyped(m: Append)
    requires ValidAppend(m) && |m.data| <= MAX_PAYLOAD
    ensures TypedAll(APPEND_V2, AppendV2Values(m)) && LengthsAgree(APPEND_V2, AppendV2Values(m))
    ensures TypedAll(APPEND, AppendV3Values(m)) && LengthsAgree(APPEND, AppendV3Values(m))
    ensures Bounded(AppendV2Values(m)) && Bounded(AppendV3Values(m))
  {
    assert Power256(1) == 256;
  }

  lemma {:induction false} ReplyIsTyped(version: nat, m: Protocol.Message)
    requires Encodable(m) && !m.AppendMsg?
    ensures var fs, vs := LayoutOf(version, m), ValuesOf(version, m);
            TypedAll(fs, vs) && Bounded(vs) && LengthsAgree(fs, vs)
  {
    assert Power256(1) == 256 && Power256(2) == 65536;
    assert Power256(4) == 256 * Power256(3) == 65536 * Power256(2);
  }

  lemma {:induction false} MessageIsTyped(version: nat, m: Protocol.Message)
    requires Encodable(m)
    ensures var fs, vs := LayoutOf(version, m), ValuesOf(version, m);
            IsPlain(fs) && TypedAll(fs, vs) && Bounded(vs) && LengthsAgree(fs, vs)
  {
    DataLayouts();
    ReplyLayouts();
    if m.AppendMsg? {
      assert Power256(1) == 256;
      PowerGrows(0, 4);
      AppendIsTyped(Append(0, 0, m.offset, m.data));
    } else {
      ReplyIsTyped(version, m);
    }
  }

  function EncodeMessage(version: nat, m: Protocol.Message): Bytes
    requires Encodable(m)
    ensures |EncodeMessage(version, m)| >= 2
  {
    MessageIsTyped(version, m);
    PlainTravels(LayoutOf(version, m), ValuesOf(version, m), 3);
    Encode(LayoutOf(version, m), ValuesOf(version, m))
  }

  /** What a client program makes of a message it has read. */
  function DecodeMessage(b: Bytes): Option<Protocol.Message> {
    if |b| < 2 || |b| >= TWO63 then None
    else
      LayoutsAreProductive();
      var fs := if b[0] == APPEND_V2_TYPE then APPEND_V2 else if b[0] == APPEND_TYPE then APPEND
                else if b[0] == ACK_NACK_TYPE then ACK_NACK else if b[0] == BROADCAST_TYPE then BROADCAST
                else SET_KEY_ACK_NACK;
      var r := Decode(fs, b, 0, 0);
      if r.IsFailure() then None
      else
        DecodedTyped(fs, b);
        MessageOf(b[0], fs, r.value)
  }

  function MessageOf(kind: Byte, fs: Schema, vs: seq<Value>): Option<Protocol.Message>
    requires TypedAll(fs, vs)
  {
    if fs == APPEND_V2 || fs == APPEND then
      AppendTypes(fs, vs);
      Some(Protocol.AppendMsg(if fs == APPEND then vs[3].n else vs[2].n, if fs == APPEND then vs[4].data else vs[3].data))
    else if fs == ACK_NACK && vs[2].IntValue? && vs[3].IntValue? then Some(Protocol.AckNackMsg(vs[2].n, vs[3].n))
    else if fs == BROADCAST && vs[3].DataValue? then Some(Protocol.BroadcastMsg(vs[3].data))
    else if fs == SET_KEY_ACK_NACK && kind == SET_KEY_ACK_NACK_TYPE && vs[2].IntValue? && vs[3].IntValue? then
      Some(Protocol.SetKeyAckNackMsg(vs[2].n == 1, vs[3].n))
    else None
  }

  /** Reading the values of a message, whatever its flag, gives the message. */
  lemma {:induction false} MessageOfValues(version: nat, m: Protocol.Message, flag: Byte)
    requires Encodable(m)
    ensures var fs, vs := LayoutOf(version, m), ValuesOf(version, m)[1 := IntValue(flag)];
            vs[0].IntValue? && vs[0].n < 256 && (TypedAll(fs, vs) ==> MessageOf(vs[0].n, fs, vs) == Some(m))
  {
  }

  /** One queued message arrives as it was queued. */
  lemma {:induction false} QueuedMessageArrives(version: nat, m: Protocol.Message, maxSize: nat)
    requires Encodable(m) && maxSize >= 3
    ensures DecodeMessage(Flagged(EncodeMessage(version, m), maxSize)) == Some(m)
  {
    MessageIsTyped(version, m);
    var fs, vs := LayoutOf(version, m), ValuesOf(version, m);
    PlainTravels(fs, vs, maxSize);
    var flag: Byte := if |Encode(fs, vs)| > maxSize then 1 else 0;
    var b := Received(fs, vs, maxSize);
    MessageOfValues(version, m, flag);
    DecodeKnown(b, fs, vs[1 := IntValue(flag)], m);
  }

  lemma {:induction false} DecodeKnown(b: Bytes, fs: Schema, vs: seq<Value>, m: Protocol.Message)
    requires 2 <= |b| < TWO63 && Productive(fs) && Decode(fs, b, 0, 0) == Decoded(vs, |b|)
    requires TypedAll(fs, vs) ==> MessageOf(b[0], fs, vs) == Some(m)
    requires fs == (if b[0] == APPEND_V2_TYPE then APPEND_V2 else if b[0] == APPEND_TYPE then APPEND
                    else if b[0] == ACK_NACK_TYPE then ACK_NACK else if b[0] == BROADCAST_TYPE then BROADCAST
                    else SET_KEY_ACK_NACK)
    ensures DecodeMessage(b) == Some(m)
  {
    LayoutsAreProductive();
    DecodedTyped(fs, b);
  }

  function Outgoings(version: nat, queue: seq<Protocol.Message>, maxSize: nat): seq<Sendable>
    requires maxSize >= 3 && forall i :: 0 <= i < |queue| ==> Encodable(queue[i])
  {
    seq(|queue|, i requires 0 <= i < |queue| && Encodable(queue[i]) => Outgoing(EncodeMessage(version, queue[i]), maxSize))
  }

  /**
   Whatever is queued for a connection, in either protocol version and under any workable limit
   on the size of frames, the other side reads and decodes exactly those messages in that order.
   */
  lemma {:induction false} QueueArrives(version: nat, queue: seq<Protocol.Message>, maxSize: nat)
    requires maxSize >= 3 && forall i :: 0 <= i < |queue| ==> Encodable(queue[i])
    ensures var r := ReadAll(Stream(Outgoings(version, queue, maxSize)));
            && r.Some? && |r.value| == |queue|
            && forall i :: 0 <= i < |queue| ==> DecodeMessage(r.value[i]) == Some(queue[i])
  {
    var out := Outgoings(version, queue, maxSize);
    StreamReadsBack(out);
    forall i | 0 <= i < |queue|
      ensures DecodeMessage(Flagged(out[i].data, out[i].maxSize)) == Some(queue[i])
    {
      QueuedMessageArrives(version, queue[i], maxSize);
    }
  }

  // ----- Key information ----------------------------------------------------------------

  const KEY_INFORMATION_TYPE := 0x82

  predicate ValidKey(k: Store.Key) { IsU32(k.version) && IsU32(|k.name|) && IsU32(|k.value|) }

  function KeyValues(k: Store.Key): seq<Value>
    requires ValidKey(k)
  {
    [IntValue(k.version), IntValue(|k.name|), TextValue(k.name), IntValue(|k.value|), TextValue(k.value)]
  }

  function KeyOf(vs: seq<Value>): Option<Store.Key> {
    if |vs| == 5 && vs[0].IntValue? && vs[2].TextValue? && vs[4].TextValue?
    then Some(Store.Key(vs[0].n, vs[2].text, vs[4].text)) else None
  }

  function KeyInformationValues(keys: seq<Store.Key>): seq<Value>
    requires forall i :: 0 <= i < |keys| ==> ValidKey(keys[i])
  {
    [IntValue(KEY_INFORMATION_TYPE), IntValue(0),
     ListValue(seq(|keys|, i requires 0 <= i < |keys| && ValidKey(keys[i]) => KeyValues(keys[i])))]
  }

  lemma {:induction false} KeyIsTyped(k: Store.Key)
    requires ValidKey(k)
    ensures Typed(KEY, KeyValues(k)) && Consistent(KEY, KeyValues(k), 0)
    ensures KeyOf(KeyValues(k)) == Some(k)
  {
    var vs := KeyValues(k);
    TypedPointwise(KEY, vs);
    ConsistentPointwise(KEY, vs, 0);
  }

  lemma {:induction false} KeyInformationIsTyped(keys: seq<Store.Key>)
    requires forall i :: 0 <= i < |keys| ==> ValidKey(keys[i])
    ensures var vs := KeyInformationValues(keys); Typed(KEY_INFORMATION, vs) && Consistent(KEY_INFORMATION, vs, 0)
  {
    var vs := KeyInformationValues(keys);
    forall i | 0 <= i < |keys| ensures Typed(KEY, vs[2].items[i]) && Consistent(KEY, vs[2].items[i], 0) {
      KeyIsTyped(keys[i]);
    }
    assert Power256(1) == 256;
    TypedPointwise(KEY_INFORMATION, vs);
    assert KEY_INFORMATION[1..][1..] == [ListField(true, KEY)] && KEY_INFORMATION[1..][0] == U8;
    assert vs[1..][1..] == [vs[2]] && vs[1..][0] == vs[1];
    assert ConsistentField(ListField(true, KEY), vs[2], vs[1].n);
    assert Typed([ListField(true, KEY)], [vs[2]]) && Consistent([ListField(true, KEY)], [vs[2]], vs[1].n);
    assert Consistent(KEY_INFORMATION[1..], vs[1..], vs[0].n);
  }

  /** The keys sent to a client are the keys it reads, whatever the size of the frames. */
  lemma {:induction false} KeysTravel(keys: seq<Store.Key>, maxSize: nat)
    requires maxSize >= 3 && forall i :: 0 <= i < |keys| ==> ValidKey(keys[i])
    ensures var vs := KeyInformationValues(keys);
            && Typed(KEY_INFORMATION, vs) && IsMessage(KEY_INFORMATION) && Productive(KEY_INFORMATION)
            && (|Encode(KEY_INFORMATION, vs)| < TWO63 ==>
                  var b := Received(KEY_INFORMATION, vs, maxSize);
                  && |Encode(KEY_INFORMATION, vs)| >= 2
                  && ReadMessage(Frames(Encode(KEY_INFORMATION, vs), maxSize)) == Message(b, [])
                  && var r := Decode(KEY_INFORMATION, b, 0, 0);
                     && r.Decoded? && r.pos == |b| && |r.value| == 3 && r.value[2].ListValue?
                     && |r.value[2].items| == |keys|
                     && forall i :: 0 <= i < |keys| ==> KeyOf(r.value[2].items[i]) == Some(keys[i]))
  {
    var vs := KeyInformationValues(keys);
    KeyLayouts();
    KeyInformationIsTyped(keys);
    WellFormedIsProductive(KEY_INFORMATION, false, true);
    if |Encode(KEY_INFORMATION, vs)| < TWO63 {
      MessageTravels(KEY_INFORMATION, vs, maxSize);
      forall i | 0 <= i < |keys| ensures KeyOf(vs[2].items[i]) == Some(keys[i]) {
        KeyIsTyped(keys[i]);
      }
    }
  }
}
