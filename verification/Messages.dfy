/** The messages of the server: their schemas, and both versions of init and append. */
module Messages {
  import opened Base
  import opened Codec

  const U8 := IntField(1)
  const U16 := IntField(2)
  const U32 := IntField(4)
  const U64 := IntField(8)

  const INIT_V2: Schema := [U8, U8, U16, U32, U8, U64, U8, TextField, DataField]
  const INIT: Schema := [U8, U8, U16, U32, U8, U32, U64, U32, TextField, DataField]
  const APPEND_V2: Schema := [U8, U8, U64, DataField]
  const APPEND: Schema := [U8, U8, U32, U64, DataField]
  const SET_KEY: Schema := [U8, U8, U16, U8, U32, U32, U32, TextField, U32, TextField]
  const ERROR: Schema := [U8, U8, U16, TextField]
  const ACK_NACK: Schema := [U8, U8, U16, U64]
  const SET_KEY_ACK_NACK: Schema := [U8, U8, U16, U16]
  const KEY: Schema := [U32, U32, TextField, U32, TextField]
  const KEY_INFORMATION: Schema := [U8, U8, ListField(true, KEY)]
  const BROADCAST: Schema := [U8, U8, U32, DataField]

  const ALL: seq<Schema> :=
    [INIT_V2, INIT, APPEND_V2, APPEND, SET_KEY, ERROR, ACK_NACK, SET_KEY_ACK_NACK, KEY_INFORMATION, BROADCAST]

  /** Every message begins with its type and the flag of the framing, which governs no length. */
  predicate IsMessage(fs: Schema) {
    && |fs| >= 2 && fs[0] == U8 && fs[1] == U8
    && (|fs| > 2 ==> !fs[2].TextField? && (fs[2].ListField? ==> fs[2].toEnd))
    && WellFormed(fs, false, true) && ShortLengths(fs, true)
  }

  // ----- Checking layouts field by field ------------------------------------------------

  /** The length of a string stands right before it, in at most four bytes. */
  predicate Prefixed(fs: Schema, from: nat) {
    forall i :: from <= i < |fs| && fs[i].TextField? ==> i > 0 && fs[i - 1].IntField? && fs[i - 1].size <= 4
  }

  predicate FieldFits(fs: Schema, i: nat, mayEnd: bool)
    requires i < |fs|
  {
    match fs[i]
    case IntField(size) => 1 <= size <= 8
    case TextField => true
    case DataField => mayEnd && i == |fs| - 1
    case ListField(toEnd, elem) => mayEnd && i == |fs| - 1 && toEnd && elem == KEY
  }

  lemma {:induction false} LayoutIsWellFormed(fs: Schema, hasInt: bool, mayEnd: bool)
    requires Prefixed(fs, if hasInt then 1 else 0)
    requires forall i :: 0 <= i < |fs| ==> FieldFits(fs, i, mayEnd) && !fs[i].ListField?
    ensures WellFormed(fs, hasInt, mayEnd)
    decreases |fs|
  {
    if fs != [] {
      var rest := fs[1..];
      assert forall i :: 0 <= i < |rest| ==> rest[i] == fs[i + 1] && FieldFits(fs, i + 1, mayEnd);
      LayoutIsWellFormed(rest, hasInt || fs[0].IntField?, mayEnd);
    }
  }

  lemma {:induction false} LayoutIsShort(fs: Schema, short: bool)
    requires Prefixed(fs, 1) && (fs != [] && fs[0].TextField? ==> short)
    requires forall i :: 0 <= i < |fs| ==> !fs[i].ListField?
    ensures ShortLengths(fs, short)
    decreases |fs|
  {
    if fs != [] {
      var rest := fs[1..];
      assert forall i :: 0 <= i < |rest| ==> rest[i] == fs[i + 1];
      assert forall i :: 1 <= i < |rest| ==> rest[i - 1] == fs[i];
      LayoutIsShort(rest, if fs[0].IntField? then fs[0].size <= 4 else short);
    }
  }

  /** A message without lists. */
  predicate IsPlain(fs: Schema) {
    && IsMessage(fs) && Prefixed(fs, 0) && |fs| <= 10
    && forall i :: 0 <= i < |fs| ==> FieldFits(fs, i, true) && !fs[i].ListField?
  }

  lemma {:induction false} PlainMessage(fs: Schema)
    requires 2 <= |fs| <= 10 && fs[0] == U8 && fs[1] == U8 && Prefixed(fs, 0)
    requires |fs| > 2 ==> !fs[2].TextField?
    requires forall i :: 0 <= i < |fs| ==> FieldFits(fs, i, true) && !fs[i].ListField?
    ensures IsPlain(fs)
  {
    LayoutIsWellFormed(fs, false, true);
    LayoutIsShort(fs, true);
  }

  lemma {:induction false} KeyInformationIsMessage()
    ensures IsMessage(KEY_INFORMATION)
  {
    LayoutIsWellFormed(KEY, false, false);
    LayoutIsShort(KEY, true);
    assert KEY_INFORMATION[1..] == [U8, ListField(true, KEY)];
    assert KEY_INFORMATION[1..][1..] == [ListField(true, KEY)];
    assert WellFormed([ListField(true, KEY)], true, true) && ShortLengths([ListField(true, KEY)], true);
  }

  lemma {:induction false} InitLayouts()
    ensures IsPlain(INIT_V2) && IsPlain(INIT)
  {
    PlainMessage(INIT_V2);
    PlainMessage(INIT);
  }

  lemma {:induction false} DataLayouts()
    ensures IsPlain(APPEND_V2) && IsPlain(APPEND) && IsPlain(BROADCAST)
  {
    PlainMessage(APPEND_V2);
    PlainMessage(APPEND);
    PlainMessage(BROADCAST);
  }

  lemma {:induction false} KeyLayouts()
    ensures IsPlain(SET_KEY) && IsMessage(KEY_INFORMATION)
  {
    PlainMessage(SET_KEY);
    KeyInformationIsMessage();
  }

  lemma {:induction false} ReplyLayouts()
    ensures IsPlain(ERROR) && IsPlain(ACK_NACK) && IsPlain(SET_KEY_ACK_NACK)
  {
    PlainMessage(ERROR);
    PlainMessage(ACK_NACK);
    PlainMessage(SET_KEY_ACK_NACK);
  }

  /** All ten layouts are well formed and bound the lengths they announce. */
  lemma {:induction false} AllAreMessages(fs: Schema)
    requires fs in ALL
    ensures IsMessage(fs) && (fs != KEY_INFORMATION ==> IsPlain(fs))
  {
    InitLayouts();
    DataLayouts();
    KeyLayouts();
    ReplyLayouts();
  }

  /** Decoding any of the messages never takes a slice out of range, whatever arrives. */
  lemma {:induction false} DecodingIsSafe(fs: Schema, m: Bytes)
    requires fs in ALL && |m| + 0x1_0000_0000 <= TWO63
    ensures Productive(fs) && !Decode(fs, m, 0, 0).Crash?
  {
    AllAreMessages(fs);
    WellFormedIsProductive(fs, false, true);
    NeverCrashes(fs, m, 0, 0, true);
  }

  lemma {:induction false} TypedPointwise(fs: Schema, vs: seq<Value>)
    ensures Typed(fs, vs) <==> TypedAll(fs, vs)
    decreases |fs|
  {
    if fs != [] && |fs| == |vs| {
      TypedPointwise(fs[1..], vs[1..]);
      assert forall i :: 1 <= i < |fs| ==> fs[i] == fs[1..][i - 1] && vs[i] == vs[1..][i - 1];
    }
  }

  predicate TypedAll(fs: Schema, vs: seq<Value>) {
    |fs| == |vs| && forall i :: 0 <= i < |fs| ==> TypedField(fs[i], vs[i])
  }

  predicate LengthsAgree(fs: Schema, vs: seq<Value>)
    requires TypedAll(fs, vs) && Prefixed(fs, 1)
  {
    forall i :: 1 <= i < |fs| && fs[i].TextField? ==>
      TypedField(fs[i], vs[i]) && TypedField(fs[i - 1], vs[i - 1]) && |vs[i].text| == vs[i - 1].n
  }

  /** A plain message is consistent exactly when every string is as long as the integer before it says. */
  lemma {:induction false} ConsistentPointwise(fs: Schema, vs: seq<Value>, value: nat)
    requires TypedAll(fs, vs) && Prefixed(fs, 1) && forall i :: 0 <= i < |fs| ==> !fs[i].ListField?
    ensures Typed(fs, vs)
    ensures Consistent(fs, vs, value) <==>
            (fs != [] && fs[0].TextField? ==> TypedField(fs[0], vs[0]) && |vs[0].text| == value) && LengthsAgree(fs, vs)
    decreases |fs|
  {
    TypedPointwise(fs, vs);
    if fs != [] {
      var fs', vs' := fs[1..], vs[1..];
      assert forall i :: 1 <= i < |fs| ==> fs[i] == fs'[i - 1] && vs[i] == vs'[i - 1];
      assert forall i :: 0 <= i < |fs'| ==> fs'[i] == fs[i + 1] && vs'[i] == vs[i + 1];
      ConsistentPointwise(fs', vs', Governor(vs[0], value));
    }
  }
}
