/**
 * The Android framework objects the bridge talks to, reduced to what the bridge can observe:
 * a `Bundle` and a `ContentValues` are maps from key to a tagged value, a `Cursor` is a list
 * of rows with a position and an open/closed state, and a `ContentResolver` answers requests
 * through functions left uninterpreted, keeping a log of the requests it was sent.
 */
module Android {
  import opened Wrappers
  import opened Numbers
  import opened Errors

  /** A content URI; its parsing and `toString` are taken as the identity. */
  type Uri = string

  // ---------------------------------------------------------------- Bundle (query arguments)

  /** The `ContentResolver.QUERY_ARG_*` constants that the bridge writes, kept symbolic. */
  datatype QueryArgKey =
    | GroupColumns | SortColumns | SqlSelectionArgs
    | Limit | Offset | SortDirection
    | SortCollation | SortLocale | SqlGroupBy | SqlHaving | SqlLimit | SqlSelection | SqlSortOrder

  /** A bundle entry, tagged by the `put*` call that wrote it. */
  datatype BundleValue =
    | StringArrayArg(strings: seq<string>)
    | IntArg(int32: Int32)
    | StringArg(text: string)

  class Bundle {
    var entries: map<QueryArgKey, BundleValue>

    constructor ()
      ensures entries == map[]
    {
      entries := map[];
    }

    method PutStringArray(key: QueryArgKey, strings: seq<string>)
      modifies this
      ensures entries == old(entries)[key := StringArrayArg(strings)]
    {
      entries := entries[key := StringArrayArg(strings)];
    }

    method PutInt(key: QueryArgKey, n: Int32)
      modifies this
      ensures entries == old(entries)[key := IntArg(n)]
    {
      entries := entries[key := IntArg(n)];
    }

    method PutString(key: QueryArgKey, text: string)
      modifies this
      ensures entries == old(entries)[key := StringArg(text)]
    {
      entries := entries[key := StringArg(text)];
    }
  }

  // ---------------------------------------------------------------- ContentValues (insert values)

  /** A `ContentValues` entry, tagged by the `put`/`putNull` overload that wrote it. */
  datatype StoredValue =
    | NullValue
    | StringValue(text: string)
    | BooleanValue(boolean: bool)
    | ByteValue(int8: Int8)
    | ShortValue(int16: Int16)
    | IntegerValue(int32: Int32)
    | LongValue(int64: Int64)
    | FloatValue(float: Float64)
    | DoubleValue(double: Float64)
    | BytesValue(bytes: seq<bv8>)

  class ContentValues {
    var entries: map<string, StoredValue>

    constructor ()
      ensures entries == map[]
    {
      entries := map[];
    }

    /** Every `put` overload and `putNull`: the key now holds the value, replacing any earlier one. */
    method Put(key: string, value: StoredValue)
      modifies this
      ensures entries == old(entries)[key := value]
    {
      entries := entries[key := value];
    }
  }

  // ---------------------------------------------------------------- Cursor

  const FIELD_TYPE_NULL: int := 0
  const FIELD_TYPE_INTEGER: int := 1
  const FIELD_TYPE_FLOAT: int := 2
  const FIELD_TYPE_STRING: int := 3
  const FIELD_TYPE_BLOB: int := 4

  /**
   * What the typed getters `getInt`, `getDouble`, `getString` and `getBlob` return for one
   * column of the current row (how the platform narrows a 64-bit integer is not modelled).
   */
  datatype Cell = Cell(asInt: Int32, asDouble: Float64, asString: string, asBlob: seq<bv8>)

  /** One column of a row: `getColumnName(i)`, `getType(i)` and the getters' answers. */
  datatype Column = Column(name: string, typeCode: int, cell: Cell)

  type Row = seq<Column>

  class Cursor {
    const rows: seq<Row>
    /** -1 before the first row, `|rows|` after the last one. */
    var position: int
    var closed: bool

    ghost predicate Valid()
      reads this
    {
      -1 <= position <= |rows|
    }

    constructor (rows: seq<Row>)
      ensures this.rows == rows && position == -1 && !closed && Valid()
    {
      this.rows := rows;
      position := -1;
      closed := false;
    }

    /** Advances one row; true when the cursor is then on a row. */
    method MoveToNext() returns (onRow: bool)
      requires Valid() && !closed
      modifies this`position
      ensures Valid()
      ensures position == if old(position) < |rows| then old(position) + 1 else |rows|
      ensures onRow <==> position < |rows|
    {
      if position < |rows| {
        position := position + 1;
      }
      onRow := position < |rows|;
    }

    method Close()
      modifies this`closed
      ensures closed
    {
      closed := true;
    }
  }

  // ---------------------------------------------------------------- ContentResolver (the provider)

  /** A call the bridge made on the content resolver, with the contents of what it passed. */
  datatype Request =
    | QueryRequest(uri: Uri, projection: seq<string>, queryArgs: map<QueryArgKey, BundleValue>)
    | InsertRequest(uri: Uri, values: Option<map<string, StoredValue>>)

  /**
   * The platform content resolver. Its answers are functions of the whole request history
   * (whose last element is the request being answered), so the store behind it may change
   * with every insert; what those functions are is left open.
   */
  class ContentResolver {
    const answerQuery: seq<Request> -> Result<Option<seq<Row>>, Error>
    const answerInsert: seq<Request> -> Result<Option<Uri>, Error>
    var requests: seq<Request>
    /** Every cursor this resolver has handed out, in order. */
    ghost var issued: seq<Cursor>

    constructor (answerQuery: seq<Request> -> Result<Option<seq<Row>>, Error>,
                 answerInsert: seq<Request> -> Result<Option<Uri>, Error>)
      ensures this.answerQuery == answerQuery && this.answerInsert == answerInsert
      ensures requests == [] && issued == []
    {
      this.answerQuery := answerQuery;
      this.answerInsert := answerInsert;
      requests := [];
      issued := [];
    }

    /** `query(uri, projection, queryArgs, null)`: a fresh open cursor, `null`, or a provider failure. */
    method Query(uri: Uri, projection: seq<string>, queryArgs: Bundle) returns (r: Result<Option<Cursor>, Error>)
      modifies this`requests, this`issued
      ensures requests == old(requests) + [QueryRequest(uri, projection, queryArgs.entries)]
      ensures issued == old(issued) + (if r.Success? && r.value.Some? then [r.value.value] else [])
      ensures answerQuery(requests).Failure? ==> r == Failure(answerQuery(requests).error)
      ensures answerQuery(requests) == Success(None) ==> r == Success(None)
      ensures answerQuery(requests).Success? && answerQuery(requests).value.Some? ==>
        && r.Success? && r.value.Some?
        && fresh(r.value.value) && r.value.value.Valid()
        && r.value.value.rows == answerQuery(requests).value.value
        && r.value.value.position == -1 && !r.value.value.closed
    {
      requests := requests + [QueryRequest(uri, projection, queryArgs.entries)];
      match answerQuery(requests)
      case Failure(e) =>
        r := Failure(e);
      case Success(None) =>
        r := Success(None);
      case Success(Some(rows)) =>
        var cursor := new Cursor(rows);
        issued := issued + [cursor];
        r := Success(Some(cursor));
    }

    /** `insert(uri, values)`: the URI of the new row, `null`, or a provider failure. */
    method Insert(uri: Uri, values: ContentValues?) returns (r: Result<Option<Uri>, Error>)
      modifies this`requests
      ensures requests == old(requests) + [InsertRequest(uri, if values == null then None else Some(values.entries))]
      ensures r == answerInsert(requests)
    {
      requests := requests + [InsertRequest(uri, if values == null then None else Some(values.entries))];
      r := answerInsert(requests);
    }
  }
}
