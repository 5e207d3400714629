/**
 * `createContentValues`, `putNumber` and `putDouble`: each insert value is written into a
 * `ContentValues` according to its runtime kind; an unsupported kind or a NaN/infinite number
 * throws, naming the key.
 */
module ValueEncoding {
  import opened Wrappers
  import opened Numbers
  import opened Errors
  import opened Android
  import opened DoubleNarrowing

  /** The runtime kinds of `Number` that `putNumber` tells apart; `OtherNumber` carries `toDouble()`. */
  datatype Number =
    | ByteNumber(int8: Int8)
    | ShortNumber(int16: Int16)
    | IntNumber(int32: Int32)
    | LongNumber(int64: Int64)
    | FloatNumber(float: Float64)
    | DoubleNumber(double: Float64)
    | OtherNumber(typeName: string, asDouble: Float64)

  /** The runtime kind of an insert value (`Any?`); `OtherValue` carries its class name. */
  datatype InsertValue =
    | NullInput
    | StringInput(text: string)
    | BooleanInput(boolean: bool)
    | NumberInput(number: Number)
    | BytesInput(bytes: seq<bv8>)
    | OtherInput(typeName: string)

  /** The insert values as `forEach` visits them: key and value, in the map's iteration order. */
  type InsertValues = seq<(string, InsertValue)>

  /** The double a number is narrowed from, for the two kinds that go through `putDouble`. */
  predicate GoesThroughPutDouble(number: Number)
  {
    number.DoubleNumber? || number.OtherNumber?
  }

  function DoubleOf(number: Number): Float64
    requires GoesThroughPutDouble(number)
  {
    if number.DoubleNumber? then number.double else number.asDouble
  }

  /** `putNumber`'s dispatch: fixed-width kinds are stored as they are, without any check. */
  function ClassifyNumber(key: string, number: Number): (r: Result<StoredValue, Error>)
    ensures r.Failure? ==> GoesThroughPutDouble(number) && !DoubleOf(number).Finite?
    ensures GoesThroughPutDouble(number) ==> r == NarrowDouble(key, DoubleOf(number))
    ensures number.ByteNumber? ==> r == Success(ByteValue(number.int8))
    ensures number.ShortNumber? ==> r == Success(ShortValue(number.int16))
    ensures number.IntNumber? ==> r == Success(IntegerValue(number.int32))
    ensures number.LongNumber? ==> r == Success(LongValue(number.int64))
    ensures number.FloatNumber? ==> r == Success(FloatValue(number.float))
  {
    match number
    case ByteNumber(b) => Success(ByteValue(b))
    case ShortNumber(s) => Success(ShortValue(s))
    case IntNumber(i) => Success(IntegerValue(i))
    case LongNumber(l) => Success(LongValue(l))
    case FloatNumber(f) => Success(FloatValue(f))
    case DoubleNumber(d) => NarrowDouble(key, d)
    case OtherNumber(_, d) => NarrowDouble(key, d)
  }

  /** An entry `createContentValues` can store. */
  predicate Encodable(value: InsertValue)
  {
    match value
    case OtherInput(_) => false
    case NumberInput(number) => !GoesThroughPutDouble(number) || DoubleOf(number).Finite?
    case _ => true
  }

  /** The `when (value)` dispatch for one entry. */
  function ClassifyValue(key: string, value: InsertValue): (r: Result<StoredValue, Error>)
    ensures r.Success? <==> Encodable(value)
    ensures value.OtherInput? ==> r == Failure(UnsupportedValueType(key, value.typeName))
    ensures r.Failure? && value.NumberInput? ==> r.error == UnsupportedNumericValue(key, DoubleOf(value.number))
    ensures r.Success? && r.value.NullValue? <==> value.NullInput?
    ensures value.StringInput? ==> r == Success(StringValue(value.text))
    ensures value.BooleanInput? ==> r == Success(BooleanValue(value.boolean))
    ensures value.BytesInput? ==> r == Success(BytesValue(value.bytes))
    ensures value.NumberInput? ==> r == ClassifyNumber(key, value.number)
  {
    match value
    case NullInput => Success(NullValue)
    case StringInput(s) => Success(StringValue(s))
    case BooleanInput(b) => Success(BooleanValue(b))
    case NumberInput(number) => ClassifyNumber(key, number)
    case BytesInput(bytes) => Success(BytesValue(bytes))
    case OtherInput(typeName) => Failure(UnsupportedValueType(key, typeName))
  }

  /**
   * The contents the values encode to: entries in iteration order, a later entry replacing an
   * earlier one with the same key, and the first entry that cannot be stored aborting it all.
   */
  function EncodeValues(values: InsertValues): Result<map<string, StoredValue>, Error>
  {
    if values == [] then Success(map[])
    else
      match ClassifyValue(values[0].0, values[0].1)
      case Failure(e) => Failure(e)
      case Success(v) => MergeUnder(map[values[0].0 := v], EncodeValues(values[1..]))
  }

  function Keys(values: InsertValues): set<string>
  {
    set i | 0 <= i < |values| :: values[i].0
  }

  /** The values encode exactly when every entry can be stored. */
  lemma {:induction false} EncodeValuesSucceeds(values: InsertValues)
    ensures EncodeValues(values).Success? <==> forall i :: 0 <= i < |values| ==> Encodable(values[i].1)
  {
    if values != [] {
      EncodeValuesSucceeds(values[1..]);
      assert forall i :: 1 <= i < |values| ==> values[i] == values[1..][i - 1];
    }
  }

  /** The first entry that cannot be stored decides the failure, which names its key. */
  lemma {:induction false} EncodeValuesFirstFailure(values: InsertValues, i: nat)
    requires i < |values| && !Encodable(values[i].1)
    requires forall j :: 0 <= j < i ==> Encodable(values[j].1)
    ensures EncodeValues(values) == Failure(ClassifyValue(values[i].0, values[i].1).error)
    ensures EncodeValues(values).error.UnsupportedValueType? || EncodeValues(values).error.UnsupportedNumericValue?
    ensures EncodeValues(values).error.key == values[i].0
  {
    if i > 0 {
      EncodeValuesFirstFailure(values[1..], i - 1);
    }
  }

  /** The stored keys are exactly the input keys. */
  lemma {:induction false} EncodeValuesKeys(values: InsertValues)
    requires EncodeValues(values).Success?
    ensures EncodeValues(values).value.Keys == Keys(values)
  {
    if values != [] {
      EncodeValuesKeys(values[1..]);
      assert Keys(values) == {values[0].0} + Keys(values[1..]) by {
        forall k ensures k in Keys(values) <==> k in {values[0].0} + Keys(values[1..]) {
          if k in Keys(values) {
            var i :| 0 <= i < |values| && values[i].0 == k;
            if i > 0 { assert values[1..][i - 1].0 == k; }
          }
          if k in Keys(values[1..]) {
            var i :| 0 <= i < |values[1..]| && values[1..][i].0 == k;
            assert values[i + 1].0 == k;
          }
        }
      }
    }
  }

  /** Each key holds what its last entry stores. */
  lemma {:induction false} EncodeValuesLastEntryWins(values: InsertValues, i: nat)
    requires EncodeValues(values).Success?
    requires i < |values|
    requires forall j :: i < j < |values| ==> values[j].0 != values[i].0
    ensures ClassifyValue(values[i].0, values[i].1).Success?
    ensures values[i].0 in EncodeValues(values).value
    ensures EncodeValues(values).value[values[i].0] == ClassifyValue(values[i].0, values[i].1).value
  {
    EncodeValuesSucceeds(values);
    EncodeValuesSucceeds(values[1..]);
    if i == 0 {
      EncodeValuesKeys(values[1..]);
      assert values[0].0 !in Keys(values[1..]);
    } else {
      EncodeValuesLastEntryWins(values[1..], i - 1);
    }
  }

  /** One stored entry moves from the part still to encode into the part already written. */
  lemma EncodeValuesStep(values: InsertValues, i: nat, written: map<string, StoredValue>)
    requires i < |values| && Encodable(values[i].1)
    ensures MergeUnder(written, EncodeValues(values[i..]))
         == MergeUnder(written[values[i].0 := ClassifyValue(values[i].0, values[i].1).value], EncodeValues(values[i + 1..]))
  {
    assert values[i..][0] == values[i] && values[i..][1..] == values[i + 1..];
    var stored := ClassifyValue(values[i].0, values[i].1).value;
    var rest := EncodeValues(values[i + 1..]);
    if rest.Success? {
      assert written + (map[values[i].0 := stored] + rest.value) == written[values[i].0 := stored] + rest.value;
    }
  }

  /** `putDouble(contentValues, key, value)`. */
  method PutDouble(contentValues: ContentValues, key: string, value: Float64) returns (outcome: Outcome<Error>)
    modifies contentValues
    ensures NarrowDouble(key, value).Success? ==>
      outcome == Pass && contentValues.entries == old(contentValues.entries)[key := NarrowDouble(key, value).value]
    ensures NarrowDouble(key, value).Failure? ==>
      outcome == Fail(NarrowDouble(key, value).error) && contentValues.entries == old(contentValues.entries)
  {
    match value
    case Finite(x) =>
      if IsLongValue(x) {
        var longValue: Int64 := x.Floor;
        contentValues.Put(key, LongValue(longValue));
      } else {
        contentValues.Put(key, DoubleValue(value));
      }
      outcome := Pass;
    case _ =>
      outcome := Fail(UnsupportedNumericValue(key, value));
  }

  /** `putNumber(contentValues, key, number)`. */
  method PutNumber(contentValues: ContentValues, key: string, number: Number) returns (outcome: Outcome<Error>)
    modifies contentValues
    ensures ClassifyNumber(key, number).Success? ==>
      outcome == Pass && contentValues.entries == old(contentValues.entries)[key := ClassifyNumber(key, number).value]
    ensures ClassifyNumber(key, number).Failure? ==>
      outcome == Fail(ClassifyNumber(key, number).error) && contentValues.entries == old(contentValues.entries)
  {
    match number
    case ByteNumber(b) =>
      contentValues.Put(key, ByteValue(b));
      outcome := Pass;
    case ShortNumber(s) =>
      contentValues.Put(key, ShortValue(s));
      outcome := Pass;
    case IntNumber(i) =>
      contentValues.Put(key, IntegerValue(i));
      outcome := Pass;
    case LongNumber(l) =>
      contentValues.Put(key, LongValue(l));
      outcome := Pass;
    case FloatNumber(f) =>
      contentValues.Put(key, FloatValue(f));
      outcome := Pass;
    case DoubleNumber(d) =>
      outcome := PutDouble(contentValues, key, d);
    case OtherNumber(_, d) =>
      outcome := PutDouble(contentValues, key, d);
  }

  /** `createContentValues(values)`: a new `ContentValues` holding every entry, or the first failure. */
  method CreateContentValues(values: InsertValues) returns (r: Result<ContentValues, Error>)
    ensures EncodeValues(values).Failure? ==> r == Failure(EncodeValues(values).error)
    ensures EncodeValues(values).Success? ==>
      r.Success? && fresh(r.value) && r.value.entries == EncodeValues(values).value
  {
    var contentValues := new ContentValues();
    assert values[0..] == values;
    if EncodeValues(values).Success? {
      assert map[] + EncodeValues(values).value == EncodeValues(values).value;
    }
    for i := 0 to |values|
      invariant fresh(contentValues)
      invariant EncodeValues(values) == MergeUnder(contentValues.entries, EncodeValues(values[i..]))
    {
      var (key, value) := values[i];
      ghost var before := contentValues.entries;
      match value {
      case NullInput =>
        contentValues.Put(key, NullValue);
      case StringInput(s) =>
        contentValues.Put(key, StringValue(s));
      case BooleanInput(b) =>
        contentValues.Put(key, BooleanValue(b));
      case NumberInput(number) =>
        var outcome := PutNumber(contentValues, key, number);
        if outcome.Fail? {
          return Failure(outcome.error);
        }
      case BytesInput(bytes) =>
        contentValues.Put(key, BytesValue(bytes));
      case OtherInput(typeName) =>
        return Failure(UnsupportedValueType(key, typeName));
      }
      EncodeValuesStep(values, i, before);
    }
    assert values[|values|..] == [];
    assert contentValues.entries + map[] == contentValues.entries;
    return Success(contentValues);
  }
}
