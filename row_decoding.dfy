/**
 * `toRecord`: the current cursor row becomes a record mapping each column name to a value
 * chosen by the column's type code; an unsupported type code throws, so no partial record
 * is produced. `DecodeRows` is what the `query` loop collects over all rows.
 */
module RowDecoding {
  import opened Wrappers
  import opened Numbers
  import opened Errors
  import opened Android

  /** A decoded record value, as handed back to JavaScript. */
  datatype RecordValue =
    | NullField
    | IntField(int32: Int32)
    | DoubleField(double: Float64)
    | StringField(text: string)

  type Record = map<string, RecordValue>

  /** The five type codes `toRecord` knows how to read. */
  predicate IsSupportedType(typeCode: int)
  {
    typeCode == FIELD_TYPE_NULL || typeCode == FIELD_TYPE_INTEGER || typeCode == FIELD_TYPE_FLOAT
    || typeCode == FIELD_TYPE_STRING || typeCode == FIELD_TYPE_BLOB
  }

  /** The dispatch on one column's type code. */
  function DecodeColumn(column: Column, decodeUtf8: seq<bv8> -> string): (r: Result<RecordValue, Error>)
    ensures r.Success? <==> IsSupportedType(column.typeCode)
    ensures r.Failure? ==> r.error == UnsupportedColumnType(column.typeCode)
    ensures r.Success? && r.value.NullField? ==> column.typeCode == FIELD_TYPE_NULL
    ensures r.Success? && r.value.IntField? ==> column.typeCode == FIELD_TYPE_INTEGER && r.value.int32 == column.cell.asInt
    ensures r.Success? && r.value.DoubleField? ==> column.typeCode == FIELD_TYPE_FLOAT && r.value.double == column.cell.asDouble
    ensures r.Success? && r.value.StringField? ==>
      || (column.typeCode == FIELD_TYPE_STRING && r.value.text == column.cell.asString)
      || (column.typeCode == FIELD_TYPE_BLOB && r.value.text == decodeUtf8(column.cell.asBlob))
  {
    if column.typeCode == FIELD_TYPE_NULL then Success(NullField)
    else if column.typeCode == FIELD_TYPE_INTEGER then Success(IntField(column.cell.asInt))
    else if column.typeCode == FIELD_TYPE_FLOAT then Success(DoubleField(column.cell.asDouble))
    else if column.typeCode == FIELD_TYPE_STRING then Success(StringField(column.cell.asString))
    else if column.typeCode == FIELD_TYPE_BLOB then Success(StringField(decodeUtf8(column.cell.asBlob)))
    else Failure(UnsupportedColumnType(column.typeCode))
  }

  /**
   * The record a row decodes to: columns are read left to right, a later column overwrites an
   * earlier one of the same name, and the first unsupported column aborts the whole row.
   */
  function DecodeRow(row: Row, decodeUtf8: seq<bv8> -> string): Result<Record, Error>
  {
    if row == [] then Success(map[])
    else
      match DecodeColumn(row[0], decodeUtf8)
      case Failure(e) => Failure(e)
      case Success(v) => MergeUnder(map[row[0].name := v], DecodeRow(row[1..], decodeUtf8))
  }

  function ColumnNames(row: Row): set<string>
  {
    set i | 0 <= i < |row| :: row[i].name
  }

  /** A row decodes exactly when every column has a supported type code. */
  lemma {:induction false} DecodeRowSucceeds(row: Row, decodeUtf8: seq<bv8> -> string)
    ensures DecodeRow(row, decodeUtf8).Success? <==> forall i :: 0 <= i < |row| ==> IsSupportedType(row[i].typeCode)
  {
    if row != [] {
      DecodeRowSucceeds(row[1..], decodeUtf8);
      assert forall i :: 1 <= i < |row| ==> row[i] == row[1..][i - 1];
    }
  }

  /** The first unsupported column decides the failure: it names that column's type code. */
  lemma {:induction false} DecodeRowFirstFailure(row: Row, decodeUtf8: seq<bv8> -> string, i: nat)
    requires i < |row| && !IsSupportedType(row[i].typeCode)
    requires forall j :: 0 <= j < i ==> IsSupportedType(row[j].typeCode)
    ensures DecodeRow(row, decodeUtf8) == Failure(UnsupportedColumnType(row[i].typeCode))
  {
    if i > 0 {
      DecodeRowFirstFailure(row[1..], decodeUtf8, i - 1);
    }
  }

  /** The record's keys are exactly the row's column names. */
  lemma {:induction false} DecodeRowKeys(row: Row, decodeUtf8: seq<bv8> -> string)
    requires DecodeRow(row, decodeUtf8).Success?
    ensures DecodeRow(row, decodeUtf8).value.Keys == ColumnNames(row)
  {
    if row != [] {
      DecodeRowKeys(row[1..], decodeUtf8);
      assert ColumnNames(row) == {row[0].name} + ColumnNames(row[1..]) by {
        forall n ensures n in ColumnNames(row) <==> n in {row[0].name} + ColumnNames(row[1..]) {
          if n in ColumnNames(row) {
            var i :| 0 <= i < |row| && row[i].name == n;
            if i > 0 { assert row[1..][i - 1].name == n; }
          }
          if n in ColumnNames(row[1..]) {
            var i :| 0 <= i < |row[1..]| && row[1..][i].name == n;
            assert row[i + 1].name == n;
          }
        }
      }
    }
  }

  /** Each name holds the value of the last column carrying it, decoded by that column's type. */
  lemma {:induction false} DecodeRowLastColumnWins(row: Row, decodeUtf8: seq<bv8> -> string, i: nat)
    requires DecodeRow(row, decodeUtf8).Success?
    requires i < |row|
    requires forall j :: i < j < |row| ==> row[j].name != row[i].name
    ensures DecodeColumn(row[i], decodeUtf8).Success?
    ensures row[i].name in DecodeRow(row, decodeUtf8).value
    ensures DecodeRow(row, decodeUtf8).value[row[i].name] == DecodeColumn(row[i], decodeUtf8).value
  {
    DecodeRowSucceeds(row, decodeUtf8);
    DecodeRowSucceeds(row[1..], decodeUtf8);
    if i == 0 {
      DecodeRowKeys(row[1..], decodeUtf8);
      assert row[0].name !in ColumnNames(row[1..]);
    } else {
      DecodeRowLastColumnWins(row[1..], decodeUtf8, i - 1);
    }
  }

  /** `toRecord(cursor)`: decodes the row the cursor is on, column by column. */
  method ToRecord(cursor: Cursor, decodeUtf8: seq<bv8> -> string) returns (r: Result<Record, Error>)
    requires 0 <= cursor.position < |cursor.rows|
    ensures r == DecodeRow(cursor.rows[cursor.position], decodeUtf8)
  {
    var row := cursor.rows[cursor.position];
    var record: Record := map[];
    assert row[0..] == row;
    if DecodeRow(row, decodeUtf8).Success? {
      assert map[] + DecodeRow(row, decodeUtf8).value == DecodeRow(row, decodeUtf8).value;
    }
    for i := 0 to |row|
      invariant DecodeRow(row, decodeUtf8) == MergeUnder(record, DecodeRow(row[i..], decodeUtf8))
    {
      assert row[i..][0] == row[i] && row[i..][1..] == row[i + 1..];
      var value := DecodeColumn(row[i], decodeUtf8);
      if value.Failure? {
        return Failure(value.error);
      }
      var rest := DecodeRow(row[i + 1..], decodeUtf8);
      if rest.Success? {
        assert record + (map[row[i].name := value.value] + rest.value) == record[row[i].name := value.value] + rest.value;
      }
      record := record[row[i].name := value.value];
    }
    assert row[|row|..] == [];
    assert record + map[] == record;
    return Success(record);
  }

  /** The records `query` collects: one per row, in cursor order; the first bad row aborts. */
  function DecodeRows(rows: seq<Row>, decodeUtf8: seq<bv8> -> string): Result<seq<Record>, Error>
  {
    if rows == [] then Success([])
    else
      match DecodeRow(rows[0], decodeUtf8)
      case Failure(e) => Failure(e)
      case Success(record) => PrependTo([record], DecodeRows(rows[1..], decodeUtf8))
  }

  /** One record per row, in the same order, each the decoding of its row. */
  lemma {:induction false} DecodeRowsInOrder(rows: seq<Row>, decodeUtf8: seq<bv8> -> string)
    requires DecodeRows(rows, decodeUtf8).Success?
    ensures |DecodeRows(rows, decodeUtf8).value| == |rows|
    ensures forall i :: 0 <= i < |rows| ==>
      DecodeRow(rows[i], decodeUtf8).Success? && DecodeRows(rows, decodeUtf8).value[i] == DecodeRow(rows[i], decodeUtf8).value
  {
    if rows != [] {
      DecodeRowsInOrder(rows[1..], decodeUtf8);
      forall i | 1 <= i < |rows| ensures rows[i] == rows[1..][i - 1] { }
    }
  }

  /** The rows decode exactly when every row does. */
  lemma {:induction false} DecodeRowsSucceeds(rows: seq<Row>, decodeUtf8: seq<bv8> -> string)
    ensures DecodeRows(rows, decodeUtf8).Success? <==> forall i :: 0 <= i < |rows| ==> DecodeRow(rows[i], decodeUtf8).Success?
  {
    if rows != [] {
      DecodeRowsSucceeds(rows[1..], decodeUtf8);
      assert forall i :: 1 <= i < |rows| ==> rows[i] == rows[1..][i - 1];
    }
  }

  /** Otherwise the first failing row's error becomes the query's error. */
  lemma {:induction false} DecodeRowsFailure(rows: seq<Row>, decodeUtf8: seq<bv8> -> string, i: nat)
    requires i < |rows| && DecodeRow(rows[i], decodeUtf8).Failure?
    requires forall j :: 0 <= j < i ==> DecodeRow(rows[j], decodeUtf8).Success?
    ensures DecodeRows(rows, decodeUtf8) == Failure(DecodeRow(rows[i], decodeUtf8).error)
  {
    if i > 0 {
      DecodeRowsFailure(rows[1..], decodeUtf8, i - 1);
    }
  }

  /** One decoded row moves from the rows still to read into the records already collected. */
  lemma DecodeRowsStep(rows: seq<Row>, decodeUtf8: seq<bv8> -> string, i: nat, collected: seq<Record>)
    requires i < |rows| && DecodeRow(rows[i], decodeUtf8).Success?
    ensures PrependTo(collected, DecodeRows(rows[i..], decodeUtf8))
         == PrependTo(collected + [DecodeRow(rows[i], decodeUtf8).value], DecodeRows(rows[i + 1..], decodeUtf8))
  {
    assert rows[i..][0] == rows[i] && rows[i..][1..] == rows[i + 1..];
    var rest := DecodeRows(rows[i + 1..], decodeUtf8);
    if rest.Success? {
      assert collected + ([DecodeRow(rows[i], decodeUtf8).value] + rest.value)
          == (collected + [DecodeRow(rows[i], decodeUtf8).value]) + rest.value;
    }
  }
}
