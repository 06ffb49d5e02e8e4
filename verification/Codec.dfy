/**
 The message encoding: a message is a list of values laid out as its schema, the list of the
 fields of a Go struct, prescribes.  A string or byte field takes its length from the integer
 read last before it; a field named Data takes the rest of the message.
 */
module Codec {
  import opened Base

  /** `size` is 1, 2, 4 or 8 in the structs of the server. */
  datatype Field =
    | IntField(size: nat)
    | TextField
    | DataField
    | ListField(toEnd: bool, elem: seq<Field>)

  type Schema = seq<Field>

  datatype Value =
    | IntValue(n: nat)
    | TextValue(text: Bytes)
    | DataValue(data: Bytes)
    | ListValue(items: seq<seq<Value>>)

  function Power256(size: nat): (p: nat)
    ensures p >= 1
  {
    if size == 0 then 1 else 256 * Power256(size - 1)
  }

  // ----- Integers -----------------------------------------------------------------------

  /** The number whose big-endian digits are the bytes. */
  function BigEndian(m: Bytes): (n: nat)
    ensures n < Power256(|m|)
  {
    if m == [] then 0 else BigEndian(m[..|m| - 1]) * 256 + m[|m| - 1]
  }

  /** The last `size` big-endian digits of a number. */
  function Digits(n: nat, size: nat): (m: Bytes)
    ensures |m| == size
  {
    if size == 0 then [] else Digits(n / 256, size - 1) + [n % 256]
  }

  lemma {:induction false} BigEndianOfDigits(n: nat, size: nat)
    requires n < Power256(size)
    ensures BigEndian(Digits(n, size)) == n
  {
    if size > 0 {
      BigEndianOfDigits(n / 256, size - 1);
      assert Digits(n, size)[..size - 1] == Digits(n / 256, size - 1);
    }
  }

  lemma {:induction false} DigitsOfBigEndian(m: Bytes)
    ensures Digits(BigEndian(m), |m|) == m
  {
    if m != [] {
      var front, last := m[..|m| - 1], m[|m| - 1];
      DigitsOfBigEndian(front);
      assert BigEndian(m) / 256 == BigEndian(front) && BigEndian(m) % 256 == last;
      assert Digits(BigEndian(m), |m|) == Digits(BigEndian(front), |front|) + [last] == m;
    }
  }

  method ReadUint(m: Bytes, start: nat, size: nat) returns (ret: nat)
    requires start + size <= |m|
    ensures ret == BigEndian(m[start..start + size])
  {
    ret := 0;
    var at, left: nat := start, size;
    while left > 0
      invariant at + left == start + size
      invariant start <= at
      invariant ret == BigEndian(m[start..at])
    {
      assert m[start..at + 1][..at - start] == m[start..at];
      ret := ret * 256 + m[at];
      left := left - 1;
      at := at + 1;
    }
  }

  /** Go's v >> (8 * k). */
  function ShiftBytes(v: nat, k: nat): nat {
    if k == 0 then v else ShiftBytes(v / 256, k - 1)
  }

  lemma {:induction false} ShiftOneMore(v: nat, k: nat)
    ensures ShiftBytes(v, k + 1) == ShiftBytes(v, k) / 256
    decreases k
  {
    if k > 0 {
      ShiftOneMore(v / 256, k - 1);
    }
  }

  /** The digit at place i is the number shifted by as many bytes as come behind it. */
  lemma {:induction false} DigitAt(n: nat, size: nat, i: nat)
    requires i < size
    ensures Digits(n, size)[i] == ShiftBytes(n, size - 1 - i) % 256
    decreases size
  {
    if i < size - 1 {
      DigitAt(n / 256, size - 1, i);
    }
  }

  /** Shifting drops the last digits. */
  lemma {:induction false} DigitsOfShift(v: nat, size: nat, k: nat)
    requires k <= size
    ensures Digits(v, size)[..size - k] == Digits(ShiftBytes(v, k), size - k)
    decreases k
  {
    if k == 0 {
      assert Digits(v, size)[..size] == Digits(v, size);
    } else {
      assert Digits(v, size)[..size - k] == Digits(v / 256, size - 1)[..size - k];
      DigitsOfShift(v / 256, size - 1, k - 1);
    }
  }

  /** Appends the digits of v, most significant first. */
  method WriteUint(m: Bytes, v: nat, size: nat) returns (out: Bytes)
    ensures out == m + Digits(v, size)
  {
    out := m;
    var left: nat := size;
    while left > 0
      invariant left <= size
      invariant out == m + Digits(ShiftBytes(v, left), size - left)
    {
      left := left - 1;
      ShiftOneMore(v, left);
      out := out + [ShiftBytes(v, left) % 256];
    }
  }

  // ----- Schemas and values -------------------------------------------------------------

  /**
   A string needs an integer before it; a field that takes the rest is allowed only where
   `mayEnd` says so and then comes last; list elements begin with an integer.
   */
  predicate WellFormed(fs: Schema, hasInt: bool, mayEnd: bool)
    decreases fs
  {
    if fs == [] then true
    else
      match fs[0]
      case IntField(size) => 1 <= size <= 8 && WellFormed(fs[1..], true, mayEnd)
      case TextField => hasInt && WellFormed(fs[1..], hasInt, mayEnd)
      case DataField => mayEnd && |fs| == 1
      case ListField(toEnd, elem) =>
        && elem != [] && WellFormed(elem, false, false)
        && if toEnd then mayEnd && |fs| == 1 else hasInt && WellFormed(fs[1..], hasInt, mayEnd)
  }

  /** Every list element takes at least one byte, so reading lists to the end terminates. */
  predicate Productive(fs: Schema)
    decreases fs, 0
  {
    fs == [] || (ProductiveField(fs[0]) && Productive(fs[1..]))
  }

  predicate ProductiveField(f: Field)
    decreases f, 0
  {
    match f
    case IntField(size) => 1 <= size <= 8
    case ListField(_, elem) => elem != [] && elem[0].IntField? && Productive(elem)
    case _ => true
  }

  lemma {:induction false} WellFormedIsProductive(fs: Schema, hasInt: bool, mayEnd: bool)
    requires WellFormed(fs, hasInt, mayEnd)
    ensures Productive(fs)
    decreases fs
  {
    if fs != [] {
      if fs[0].ListField? {
        WellFormedIsProductive(fs[0].elem, false, false);
        assert fs[0].elem[0].IntField?;
      }
      WellFormedIsProductive(fs[1..], hasInt || fs[0].IntField?, mayEnd);
    }
  }

  /** The values have the types of the fields. */
  predicate Typed(fs: Schema, vs: seq<Value>)
    decreases fs, 0
  {
    |fs| == |vs| && (fs == [] || (TypedField(fs[0], vs[0]) && Typed(fs[1..], vs[1..])))
  }

  predicate TypedField(f: Field, v: Value)
    decreases f, 0
  {
    match (f, v)
    case (IntField(size), IntValue(n)) => n < Power256(size)
    case (TextField, TextValue(_)) => true
    case (DataField, DataValue(_)) => true
    case (ListField(_, elem), ListValue(items)) => forall i :: 0 <= i < |items| ==> Typed(elem, items[i])
    case _ => false
  }

  /** The integer that governs the next length once the field has been read. */
  function Governor(v: Value, value: nat): nat { if v.IntValue? then v.n else value }

  /** Every string and every counted list is as long as the integer that governs it says. */
  predicate Consistent(fs: Schema, vs: seq<Value>, value: nat)
    requires Typed(fs, vs)
    decreases fs, 0
  {
    fs == [] || (ConsistentField(fs[0], vs[0], value) && Consistent(fs[1..], vs[1..], Governor(vs[0], value)))
  }

  predicate ConsistentField(f: Field, v: Value, value: nat)
    requires TypedField(f, v)
    decreases f, 0
  {
    match f
    case TextField => |v.text| == value
    case ListField(toEnd, elem) =>
      && (toEnd || |v.items| == value)
      && forall i :: 0 <= i < |v.items| ==> Consistent(elem, v.items[i], 0)
    case _ => true
  }

  // ----- Encoding -----------------------------------------------------------------------

  function Encode(fs: Schema, vs: seq<Value>): Bytes
    requires Typed(fs, vs)
    decreases fs, 0
  {
    if fs == [] then [] else EncodeField(fs[0], vs[0]) + Encode(fs[1..], vs[1..])
  }

  function EncodeField(f: Field, v: Value): Bytes
    requires TypedField(f, v)
    decreases f, 0
  {
    match f
    case IntField(size) => Digits(v.n, size)
    case TextField => v.text
    case DataField => v.data
    case ListField(_, elem) => EncodeItems(elem, v.items)
  }

  function EncodeItems(elem: Schema, items: seq<seq<Value>>): Bytes
    requires forall i :: 0 <= i < |items| ==> Typed(elem, items[i])
    decreases elem, 1, |items|
  {
    if items == [] then [] else Encode(elem, items[0]) + EncodeItems(elem, items[1..])
  }

  // ----- Decoding -----------------------------------------------------------------------

  /** `Crash` is a slice expression out of range. */
  datatype Result<+T> = Decoded(value: T, pos: nat) | TooShort | Crash {
    predicate IsFailure() { !Decoded? }

    function PropagateFailure<U>(): Result<U>
      requires IsFailure()
    {
      if TooShort? then TooShort else Crash
    }

    function Extract(): (T, nat)
      requires Decoded?
    {
      (value, pos)
    }
  }

  /** Reads one field; `value` is the integer read last. */
  function DecodeField(f: Field, m: Bytes, pos: nat, value: nat): (r: Result<Value>)
    requires ProductiveField(f) && pos <= |m|
    ensures r.Decoded? ==> pos <= r.pos <= |m| && (f.IntField? ==> pos < r.pos)
    decreases f, 0
  {
    match f
    case IntField(size) =>
      if pos + size > |m| then TooShort else Decoded(IntValue(BigEndian(m[pos..pos + size])), pos + size)
    case TextField =>
      var end := Wrap(pos + Wrap(value));
      if end > |m| then TooShort
      else if end < pos then Crash
      else Decoded(TextValue(m[pos..end]), end)
    case DataField => Decoded(DataValue(m[pos..]), |m|)
    case ListField(toEnd, elem) =>
      var (items, pos') :- DecodeItems(elem, m, pos, toEnd, value);
      Decoded(ListValue(items), pos')
  }

  function Decode(fs: Schema, m: Bytes, pos: nat, value: nat): (r: Result<seq<Value>>)
    requires Productive(fs) && pos <= |m|
    ensures r.Decoded? ==> pos <= r.pos <= |m| && (fs != [] && fs[0].IntField? ==> pos < r.pos)
    decreases fs, 0
  {
    if fs == [] then Decoded([], pos)
    else
      var (v, pos') :- DecodeField(fs[0], m, pos, value);
      var (vs, pos'') :- Decode(fs[1..], m, pos', Governor(v, value));
      Decoded([v] + vs, pos'')
  }

  /** Reads `count` elements, or as many as there are up to the end of the message. */
  function DecodeItems(elem: Schema, m: Bytes, pos: nat, toEnd: bool, count: nat): (r: Result<seq<seq<Value>>>)
    requires elem != [] && elem[0].IntField? && Productive(elem) && pos <= |m|
    ensures r.Decoded? ==> pos <= r.pos <= |m|
    decreases elem, 1, if toEnd then |m| - pos else count
  {
    if !(if toEnd then pos < |m| else count > 0) then Decoded([], pos)
    else
      var (item, pos') :- Decode(elem, m, pos, 0);
      var (items, pos'') :- DecodeItems(elem, m, pos', toEnd, if toEnd then count else count - 1);
      Decoded([item] + items, pos'')
  }

  // ----- What decoding accepts is an encoding -------------------------------------------

  lemma {:induction false} DecodedIntIsEncoded(size: nat, m: Bytes, pos: nat)
    requires 1 <= size <= 8 && pos + size <= |m|
    ensures var n := BigEndian(m[pos..pos + size]);
            n < Power256(size) && n < TWO64 && Digits(n, size) == m[pos..pos + size]
  {
    DigitsOfBigEndian(m[pos..pos + size]);
    PowerBound(size);
  }

  lemma {:induction false} DecodedTextIsEncoded(m: Bytes, pos: nat, value: nat)
    requires pos <= |m| < TWO63 && value < TWO64 && DecodeField(TextField, m, pos, value).Decoded?
    ensures var r := DecodeField(TextField, m, pos, value);
            r.value == TextValue(m[pos..r.pos]) && r.pos == pos + value
  {
    LengthIsGovernor(|m|, pos, value);
  }

  lemma {:induction false} DecodedFieldIsEncoded(f: Field, m: Bytes, pos: nat, value: nat)
    requires ProductiveField(f) && pos <= |m| < TWO63 && value < TWO64
    requires DecodeField(f, m, pos, value).Decoded?
    ensures var r := DecodeField(f, m, pos, value);
            && TypedField(f, r.value) && ConsistentField(f, r.value, value)
            && EncodeField(f, r.value) == m[pos..r.pos]
            && Governor(r.value, value) < TWO64
    decreases f, 0
  {
    if f.IntField? {
      DecodedIntIsEncoded(f.size, m, pos);
    } else if f.TextField? {
      DecodedTextIsEncoded(m, pos, value);
    } else if f.ListField? {
      DecodedListIsEncoded(f.toEnd, f.elem, m, pos, value);
    }
  }

  lemma {:induction false} DecodedListIsEncoded(toEnd: bool, elem: Schema, m: Bytes, pos: nat, value: nat)
    requires elem != [] && elem[0].IntField? && Productive(elem) && pos <= |m| < TWO63
    requires DecodeField(ListField(toEnd, elem), m, pos, value).Decoded?
    ensures var r := DecodeField(ListField(toEnd, elem), m, pos, value);
            && TypedField(ListField(toEnd, elem), r.value) && ConsistentField(ListField(toEnd, elem), r.value, value)
            && EncodeField(ListField(toEnd, elem), r.value) == m[pos..r.pos]
            && r.value.ListValue?
    decreases elem, 2
  {
    DecodedItemsAreEncoded(elem, m, pos, toEnd, value);
  }

  /** A slice of a length that wrapped around would have its end before its start. */
  lemma {:induction false} LengthIsGovernor(length: nat, pos: nat, value: nat)
    requires pos <= length < TWO63 && value < TWO64
    requires pos <= Wrap(pos + Wrap(value)) <= length
    ensures Wrap(pos + Wrap(value)) == pos + value
  {
  }

  lemma {:induction false} PowerBound(size: nat)
    requires size <= 8
    ensures Power256(size) <= TWO64
  {
    assert Power256(8) == 256 * Power256(7) == 65536 * Power256(6) == 16777216 * Power256(5) == 4294967296 * Power256(4);
    PowerGrows(size, 8);
    assert Power256(4) == 256 * Power256(3) == 65536 * Power256(2) == 16777216 * Power256(1) == 4294967296;
  }

  lemma {:induction false} PowerGrows(i: nat, j: nat)
    requires i <= j
    ensures Power256(i) <= Power256(j)
    decreases j
  {
    if i < j {
      PowerGrows(i, j - 1);
    }
  }

  /**
   Whenever a message decodes, its values have the types of the fields, every length is the
   governing integer, and encoding them gives back the bytes that were read.
   */
  lemma {:induction false} DecodedIsEncoded(fs: Schema, m: Bytes, pos: nat, value: nat)
    requires Productive(fs) && pos <= |m| < TWO63 && value < TWO64
    requires Decode(fs, m, pos, value).Decoded?
    ensures var r := Decode(fs, m, pos, value);
            Typed(fs, r.value) && Consistent(fs, r.value, value) && Encode(fs, r.value) == m[pos..r.pos]
    decreases fs, 0
  {
    if fs != [] {
      var (v, pos') := DecodeField(fs[0], m, pos, value).Extract();
      DecodedFieldIsEncoded(fs[0], m, pos, value);
      DecodedIsEncoded(fs[1..], m, pos', Governor(v, value));
      var r := Decode(fs, m, pos, value);
      assert r.value[1..] == Decode(fs[1..], m, pos', Governor(v, value)).value;
      assert m[pos..r.pos] == m[pos..pos'] + m[pos'..r.pos];
    }
  }

  lemma {:induction false} DecodedItemsAreEncoded(elem: Schema, m: Bytes, pos: nat, toEnd: bool, count: nat)
    requires elem != [] && elem[0].IntField? && Productive(elem) && pos <= |m| < TWO63
    requires DecodeItems(elem, m, pos, toEnd, count).Decoded?
    ensures var r := DecodeItems(elem, m, pos, toEnd, count);
            && (forall i :: 0 <= i < |r.value| ==> Typed(elem, r.value[i]) && Consistent(elem, r.value[i], 0))
            && (!toEnd ==> |r.value| == count)
            && EncodeItems(elem, r.value) == m[pos..r.pos]
    decreases elem, 1, if toEnd then |m| - pos else count
  {
    if if toEnd then pos < |m| else count > 0 {
      var (item, pos') := Decode(elem, m, pos, 0).Extract();
      DecodedIsEncoded(elem, m, pos, 0);
      DecodedItemsAreEncoded(elem, m, pos', toEnd, if toEnd then count else count - 1);
      var r := DecodeItems(elem, m, pos, toEnd, count);
      assert r.value[1..] == DecodeItems(elem, m, pos', toEnd, if toEnd then count else count - 1).value;
      assert m[pos..r.pos] == m[pos..pos'] + m[pos'..r.pos];
    }
  }

  // ----- Every consistent value survives ------------------------------------------------

  /** `m` holds the encoding at `pos`, and nothing behind it if the schema takes the rest. */
  predicate Holds(m: Bytes, pos: nat, part: Bytes, toEnd: bool) {
    pos + |part| <= |m| < TWO63 && m[pos..pos + |part|] == part && (toEnd ==> pos + |part| == |m|)
  }

  lemma {:induction false} HoldsParts(m: Bytes, pos: nat, a: Bytes, b: Bytes, toEnd: bool)
    requires Holds(m, pos, a + b, toEnd)
    ensures Holds(m, pos, a, toEnd && b == []) && Holds(m, pos + |a|, b, toEnd)
  {
    assert m[pos..pos + |a|] == (a + b)[..|a|] == a;
    assert m[pos + |a|..pos + |a| + |b|] == (a + b)[|a|..] == b;
  }

  predicate TakesRest(f: Field) { f.DataField? || (f.ListField? && f.toEnd) }

  lemma {:induction false} FieldRoundTrip(f: Field, v: Value, m: Bytes, pos: nat, value: nat)
    requires ProductiveField(f) && TypedField(f, v) && ConsistentField(f, v, value)
    requires f.ListField? ==> WellFormed(f.elem, false, false)
    requires Holds(m, pos, EncodeField(f, v), TakesRest(f))
    ensures DecodeField(f, m, pos, value) == Decoded(v, pos + |EncodeField(f, v)|)
    decreases f, 0
  {
    match f
    case IntField(size) => BigEndianOfDigits(v.n, size);
    case TextField =>
    case DataField => assert m[pos..] == m[pos..pos + |v.data|];
    case ListField(toEnd, elem) => ItemsRoundTrip(elem, v.items, m, pos, toEnd, value);
  }

  /** Whatever stands before and behind an encoding, decoding there gives back the values. */
  /** The rules hold of the fields behind the first. */
  lemma {:induction false} RestIsWellFormed(fs: Schema, vs: seq<Value>, value: nat, hasInt: bool, mayEnd: bool)
    requires fs != [] && WellFormed(fs, hasInt, mayEnd) && Productive(fs) && Typed(fs, vs) && Consistent(fs, vs, value)
    ensures WellFormed(fs[1..], hasInt || fs[0].IntField?, mayEnd) && Productive(fs[1..])
    ensures Typed(fs[1..], vs[1..]) && Consistent(fs[1..], vs[1..], Governor(vs[0], value))
    ensures (fs[0].DataField? || (fs[0].ListField? && fs[0].toEnd)) ==> mayEnd && fs[1..] == []
  {
  }

  lemma {:induction false} RoundTripAt(fs: Schema, vs: seq<Value>, m: Bytes, pos: nat, value: nat, hasInt: bool, mayEnd: bool)
    requires WellFormed(fs, hasInt, mayEnd) && Productive(fs)
    requires Typed(fs, vs) && Consistent(fs, vs, value)
    requires Holds(m, pos, Encode(fs, vs), mayEnd)
    ensures Decode(fs, m, pos, value) == Decoded(vs, pos + |Encode(fs, vs)|)
    decreases fs, 0
  {
    if fs == [] {
      assert vs == [];
    } else {
      assert vs == [vs[0]] + vs[1..];
      RestIsWellFormed(fs, vs, value, hasInt, mayEnd);
      var first, rest := EncodeField(fs[0], vs[0]), Encode(fs[1..], vs[1..]);
      assert Encode(fs, vs) == first + rest;
      HoldsParts(m, pos, first, rest, mayEnd);
      FieldRoundTrip(fs[0], vs[0], m, pos, value);
      RoundTripAt(fs[1..], vs[1..], m, pos + |first|, Governor(vs[0], value), hasInt || fs[0].IntField?, mayEnd);
      DecodeStep(fs, m, pos, value, vs[0], pos + |first|, vs[1..], pos + |first| + |rest|);
    }
  }

  lemma {:induction false} DecodeStep(fs: Schema, m: Bytes, pos: nat, value: nat, v: Value, pos': nat, vs: seq<Value>, pos'': nat)
    requires fs != [] && Productive(fs) && pos <= |m| && pos' <= |m|
    requires DecodeField(fs[0], m, pos, value) == Decoded(v, pos')
    requires Decode(fs[1..], m, pos', Governor(v, value)) == Decoded(vs, pos'')
    ensures Decode(fs, m, pos, value) == Decoded([v] + vs, pos'')
  {
  }

  lemma {:induction false} DecodeItemsStep(elem: Schema, m: Bytes, pos: nat, toEnd: bool, count: nat,
                        item: seq<Value>, pos': nat, items: seq<seq<Value>>, pos'': nat)
    requires elem != [] && elem[0].IntField? && Productive(elem) && pos <= |m| && pos' <= |m|
    requires if toEnd then pos < |m| else count > 0
    requires Decode(elem, m, pos, 0) == Decoded(item, pos')
    requires DecodeItems(elem, m, pos', toEnd, if toEnd then count else count - 1) == Decoded(items, pos'')
    ensures DecodeItems(elem, m, pos, toEnd, count) == Decoded([item] + items, pos'')
  {
  }

  lemma {:induction false} EncodedItemIsNotEmpty(elem: Schema, item: seq<Value>)
    requires elem != [] && elem[0].IntField? && Productive(elem) && Typed(elem, item)
    ensures Encode(elem, item) != []
  {
    assert |EncodeField(elem[0], item[0])| >= 1;
  }

  ghost predicate AllConsistent(elem: Schema, items: seq<seq<Value>>) {
    forall i :: 0 <= i < |items| ==> Typed(elem, items[i]) && Consistent(elem, items[i], 0)
  }

  lemma {:induction false} FirstItemRoundTrip(elem: Schema, items: seq<seq<Value>>, m: Bytes, pos: nat, toEnd: bool)
    requires elem != [] && elem[0].IntField? && Productive(elem) && WellFormed(elem, false, false)
    requires AllConsistent(elem, items) && items != []
    requires Holds(m, pos, EncodeItems(elem, items), toEnd)
    ensures var first, rest := Encode(elem, items[0]), EncodeItems(elem, items[1..]);
            && pos < pos + |first| && EncodeItems(elem, items) == first + rest
            && Decode(elem, m, pos, 0) == Decoded(items[0], pos + |first|)
            && Holds(m, pos + |first|, rest, toEnd)
    decreases elem, 1, 0
  {
    var first, rest := Encode(elem, items[0]), EncodeItems(elem, items[1..]);
    HoldsParts(m, pos, first, rest, toEnd);
    EncodedItemIsNotEmpty(elem, items[0]);
    RoundTripAt(elem, items[0], m, pos, 0, false, false);
  }

  lemma {:induction false} NoItemsRoundTrip(elem: Schema, m: Bytes, pos: nat, toEnd: bool)
    requires elem != [] && elem[0].IntField? && Productive(elem) && Holds(m, pos, [], toEnd)
    ensures DecodeItems(elem, m, pos, toEnd, 0) == Decoded([], pos)
    ensures toEnd ==> forall count: nat :: DecodeItems(elem, m, pos, toEnd, count) == Decoded([], pos)
  {
  }

  lemma {:induction false} ItemsRoundTrip(elem: Schema, items: seq<seq<Value>>, m: Bytes, pos: nat, toEnd: bool, count: nat)
    requires elem != [] && elem[0].IntField? && Productive(elem) && WellFormed(elem, false, false)
    requires AllConsistent(elem, items)
    requires !toEnd ==> |items| == count
    requires Holds(m, pos, EncodeItems(elem, items), toEnd)
    ensures DecodeItems(elem, m, pos, toEnd, count) == Decoded(items, pos + |EncodeItems(elem, items)|)
    decreases elem, 1, |items|
  {
    if items == [] {
      NoItemsRoundTrip(elem, m, pos, toEnd);
    } else {
      assert items == [items[0]] + items[1..];
      var first, rest := Encode(elem, items[0]), EncodeItems(elem, items[1..]);
      FirstItemRoundTrip(elem, items, m, pos, toEnd);
      var count' := if toEnd then count else count - 1;
      assert !toEnd ==> |items[1..]| == count';
      ItemsRoundTrip(elem, items[1..], m, pos + |first|, toEnd, count');
      DecodeItemsStep(elem, m, pos, toEnd, count, items[0], pos + |first|, items[1..], pos + |first| + |rest|);
    }
  }

  /**
   A message survives encoding and decoding if and only if its length fields are the lengths of
   what they govern.
   */
  lemma {:induction false} RoundTripIffConsistent(fs: Schema, vs: seq<Value>)
    requires WellFormed(fs, false, true) && Typed(fs, vs) && |Encode(fs, vs)| < TWO63
    ensures Productive(fs)
    ensures Decode(fs, Encode(fs, vs), 0, 0) == Decoded(vs, |Encode(fs, vs)|) <==> Consistent(fs, vs, 0)
  {
    WellFormedIsProductive(fs, false, true);
    var m := Encode(fs, vs);
    if Consistent(fs, vs, 0) {
      assert m[0..|m|] == m;
      RoundTripAt(fs, vs, m, 0, 0, false, true);
    }
    if Decode(fs, m, 0, 0) == Decoded(vs, |m|) {
      DecodedIsEncoded(fs, m, 0, 0);
    }
  }

  // ----- Decoding never runs out of range -----------------------------------------------

  /** The integers that govern lengths have at most four bytes. */
  predicate ShortLengths(fs: Schema, short: bool)
    decreases fs
  {
    fs == [] ||
    (match fs[0]
     case IntField(size) => ShortLengths(fs[1..], size <= 4)
     case TextField => short && ShortLengths(fs[1..], short)
     case DataField => ShortLengths(fs[1..], short)
     case ListField(_, elem) => ShortLengths(elem, true) && ShortLengths(fs[1..], short))
  }

  lemma {:induction false} FourBytes(size: nat)
    requires size <= 4
    ensures Power256(size) <= 0x1_0000_0000
  {
    PowerGrows(size, 4);
    assert Power256(4) == 256 * Power256(3) == 65536 * Power256(2) == 16777216 * Power256(1) == 4294967296;
  }

  /** No message of a possible length makes decoding take a slice out of range. */
  lemma {:induction false} NeverCrashes(fs: Schema, m: Bytes, pos: nat, value: nat, short: bool)
    requires Productive(fs) && ShortLengths(fs, short) && pos <= |m| && |m| + 0x1_0000_0000 <= TWO63
    requires short ==> value < 0x1_0000_0000
    ensures !Decode(fs, m, pos, value).Crash?
    decreases fs, 0
  {
    if fs != [] {
      if fs[0].IntField? && fs[0].size <= 4 {
        FourBytes(fs[0].size);
      } else if fs[0].ListField? {
        ItemsNeverCrash(fs[0].elem, m, pos, fs[0].toEnd, value);
      }
      var r := DecodeField(fs[0], m, pos, value);
      assert !r.Crash?;
      if r.Decoded? {
        NeverCrashes(fs[1..], m, r.pos, Governor(r.value, value), if fs[0].IntField? then fs[0].size <= 4 else short);
      }
    }
  }

  lemma {:induction false} ItemsNeverCrash(elem: Schema, m: Bytes, pos: nat, toEnd: bool, count: nat)
    requires elem != [] && elem[0].IntField? && Productive(elem) && ShortLengths(elem, true)
    requires pos <= |m| && |m| + 0x1_0000_0000 <= TWO63
    ensures !DecodeItems(elem, m, pos, toEnd, count).Crash?
    decreases elem, 1, if toEnd then |m| - pos else count
  {
    if if toEnd then pos < |m| else count > 0 {
      NeverCrashes(elem, m, pos, 0, true);
      var r := Decode(elem, m, pos, 0);
      if r.Decoded? {
        ItemsNeverCrash(elem, m, r.pos, toEnd, if toEnd then count else count - 1);
      }
    }
  }

  // ----- The loops ----------------------------------------------------------------------

  /** A result behind values that have been read already. */
  function After<T>(done: seq<T>, r: Result<seq<T>>): Result<seq<T>> {
    if r.Decoded? then Decoded(done + r.value, r.pos) else r
  }

  lemma {:induction false} AfterNothing<T>(r: Result<seq<T>>)
    ensures After([], r) == r
  {
    assert r.Decoded? ==> [] + r.value == r.value;
  }

  /** The loop over the fields of a struct. */
  method DecodeStruct(fs: Schema, m: Bytes, start: nat) returns (r: Result<seq<Value>>)
    requires Productive(fs) && start <= |m|
    ensures r == Decode(fs, m, start, 0)
    decreases fs, 0
  {
    var pos: nat, value: nat, i := start, 0, 0;
    var vs: seq<Value> := [];
    assert fs[0..] == fs;
    AfterNothing(Decode(fs, m, start, 0));
    while i < |fs|
      invariant 0 <= i <= |fs| && pos <= |m| && Productive(fs[i..])
      invariant After(vs, Decode(fs[i..], m, pos, value)) == Decode(fs, m, start, 0)
    {
      assert fs[i..][0] == fs[i] && fs[i..][1..] == fs[i + 1..];
      var field := DecodeOne(fs[i], m, pos, value);
      if field.IsFailure() {
        return field.PropagateFailure();
      }
      value := Governor(field.value, value);
      pos := field.pos;
      assert forall r: Result<seq<Value>> | r.Decoded? :: vs + ([field.value] + r.value) == (vs + [field.value]) + r.value;
      vs := vs + [field.value];
      i := i + 1;
    }
    assert fs[i..] == [] && vs + [] == vs;
    return Decoded(vs, pos);
  }

  /** The body of that loop: one field, a list with the loop over its elements. */
  method DecodeOne(f: Field, m: Bytes, start: nat, value: nat) returns (r: Result<Value>)
    requires ProductiveField(f) && start <= |m|
    ensures r == DecodeField(f, m, start, value)
    decreases f, 0
  {
    var end: int := match f
      case IntField(size) => start + size
      case TextField => Wrap(start + Wrap(value))
      case _ => start;
    if end > |m| {
      return TooShort;
    }
    match f {
      case IntField(size) =>
        var n := ReadUint(m, start, size);
        return Decoded(IntValue(n), end);
      case TextField =>
        if end < start { return Crash; }
        return Decoded(TextValue(m[start..end]), end);
      case DataField =>
        return Decoded(DataValue(m[start..]), |m|);
      case ListField(toEnd, elem) =>
        var items: seq<seq<Value>> := [];
        var pos: nat, j: nat := start, 0;
        AfterNothing(DecodeItems(elem, m, start, toEnd, value));
        while if toEnd then pos < |m| else j < value
          invariant pos <= |m| && (!toEnd ==> j <= value)
          invariant After(items, DecodeItems(elem, m, pos, toEnd, if toEnd then value else value - j))
                    == DecodeItems(elem, m, start, toEnd, value)
          decreases if toEnd then |m| - pos else value - j
        {
          var item := DecodeStruct(elem, m, pos);
          if item.IsFailure() {
            return item.PropagateFailure();
          }
          assert forall r: Result<seq<seq<Value>>> | r.Decoded? ::
            items + ([item.value] + r.value) == (items + [item.value]) + r.value;
          items := items + [item.value];
          pos := item.pos;
          j := j + 1;
        }
        assert items + [] == items;
        return Decoded(ListValue(items), pos);
    }
  }

  /** The loop that appends the encoding of a struct to a buffer. */
  method EncodeStruct(m: Bytes, fs: Schema, vs: seq<Value>) returns (out: Bytes)
    requires Typed(fs, vs)
    ensures out == m + Encode(fs, vs)
    decreases fs
  {
    out := m;
    var i := 0;
    assert fs[0..] == fs && vs[0..] == vs;
    while i < |fs|
      invariant 0 <= i <= |fs| && Typed(fs[i..], vs[i..])
      invariant out + Encode(fs[i..], vs[i..]) == m + Encode(fs, vs)
    {
      assert fs[i..][0] == fs[i] && fs[i..][1..] == fs[i + 1..];
      assert vs[i..][0] == vs[i] && vs[i..][1..] == vs[i + 1..];
      ghost var before := out;
      match fs[i] {
        case TextField => out := out + vs[i].text;
        case DataField => out := out + vs[i].data;
        case IntField(size) => out := WriteUint(out, vs[i].n, size);
        case ListField(_, elem) =>
          var items, j := vs[i].items, 0;
          assert items[0..] == items;
          while j < |items|
            invariant 0 <= j <= |items|
            invariant out + EncodeItems(elem, items[j..]) == before + EncodeItems(elem, items)
          {
            assert items[j..][0] == items[j] && items[j..][1..] == items[j + 1..];
            out := EncodeStruct(out, elem, items[j]);
            j := j + 1;
          }
      }
      assert out == before + EncodeField(fs[i], vs[i]);
      i := i + 1;
    }
  }
}
