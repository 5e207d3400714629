/**
 * The module's two entry points, `query` and `insert`: both need the application context,
 * call the content resolver at most once, and convert what goes in and what comes back.
 */
module Bridge {
  import opened Wrappers
  import opened Errors
  import opened Android
  import opened QueryArgsEncoding
  import opened RowDecoding
  import opened ValueEncoding

  /** What `query` returns for the provider's answer: no cursor gives no records. */
  function QueryOutcome(answer: Result<Option<seq<Row>>, Error>, decodeUtf8: seq<bv8> -> string): Result<seq<Record>, Error>
  {
    match answer
    case Failure(e) => Failure(e)
    case Success(None) => Success([])
    case Success(Some(rows)) => DecodeRows(rows, decodeUtf8)
  }

  /** What `insert` hands the provider: no container for null values, else the encoded values. */
  function InsertContainer(values: Option<InsertValues>): Result<Option<map<string, StoredValue>>, Error>
  {
    match values
    case None => Success(None)
    case Some(entries) =>
      match EncodeValues(entries)
      case Failure(e) => Failure(e)
      case Success(m) => Success(Some(m))
  }

  /**
   * `query(uri, projection, queryArgs)`. `context` is the application's content resolver, absent
   * when the React context is not available; `cursor` is the cursor the provider returned, if any,
   * which is the one the resolver records as handed out by this call.
   */
  method Query(context: Option<ContentResolver>, uri: Uri, projection: seq<string>, queryArgs: QueryArgs,
               decodeUtf8: seq<bv8> -> string)
    returns (r: Result<seq<Record>, Error>, ghost cursor: Option<Cursor>)
    modifies if context.Some? then {context.value} else {}
    ensures context.None? ==> r == Failure(ContextUnavailable) && cursor.None?
    ensures context.Some? ==>
      && context.value.requests == old(context.value.requests) + [QueryRequest(uri, projection, QueryArgsBundle(queryArgs))]
      && r == QueryOutcome(context.value.answerQuery(context.value.requests), decodeUtf8)
      && (cursor.Some? <==> context.value.answerQuery(context.value.requests).Success?
                            && context.value.answerQuery(context.value.requests).value.Some?)
      && context.value.issued == old(context.value.issued) + (if cursor.Some? then [cursor.value] else [])
    ensures cursor.Some? ==> cursor.value.closed
  {
    cursor := None;
    if context.None? {
      return Failure(ContextUnavailable), cursor;
    }
    var resolver := context.value;
    var bundle := CreateQueryArgs(queryArgs);
    var answer := resolver.Query(uri, projection, bundle);
    match answer {
      case Failure(e) =>
        r := Failure(e);
      case Success(None) =>
        r := Success([]);
      case Success(Some(c)) =>
        cursor := Some(c);
        var records: seq<Record> := [];
        var onRow := c.MoveToNext();
        assert c.rows[c.position..] == c.rows;
        if DecodeRows(c.rows, decodeUtf8).Success? {
          assert [] + DecodeRows(c.rows, decodeUtf8).value == DecodeRows(c.rows, decodeUtf8).value;
        }
        while onRow
          modifies c
          invariant c.Valid() && !c.closed && 0 <= c.position <= |c.rows|
          invariant onRow <==> c.position < |c.rows|
          invariant DecodeRows(c.rows, decodeUtf8) == PrependTo(records, DecodeRows(c.rows[c.position..], decodeUtf8))
          decreases |c.rows| - c.position
        {
          var record := ToRecord(c, decodeUtf8);
          if record.Failure? {
            assert c.rows[c.position..][0] == c.rows[c.position];
            c.Close();
            return Failure(record.error), cursor;
          }
          DecodeRowsStep(c.rows, decodeUtf8, c.position, records);
          records := records + [record.value];
          onRow := c.MoveToNext();
        }
        assert c.rows[c.position..] == [];
        assert records + [] == records;
        c.Close();
        r := Success(records);
    }
  }

  /**
   * `insert(uri, values)`: encodes the values (or passes no container when they are null) before
   * the provider is called, so a value that cannot be stored means no insert is attempted.
   */
  method Insert(context: Option<ContentResolver>, uri: Uri, values: Option<InsertValues>)
    returns (r: Result<Option<Uri>, Error>)
    modifies if context.Some? then {context.value} else {}
    ensures context.None? ==> r == Failure(ContextUnavailable)
    ensures context.Some? && InsertContainer(values).Failure? ==>
      && r == Failure(InsertContainer(values).error)
      && context.value.requests == old(context.value.requests)
    ensures context.Some? && InsertContainer(values).Success? ==>
      && context.value.requests == old(context.value.requests) + [InsertRequest(uri, InsertContainer(values).value)]
      && r == context.value.answerInsert(context.value.requests)
  {
    if context.None? {
      return Failure(ContextUnavailable);
    }
    var resolver := context.value;
    var contentValues: ContentValues? := null;
    if values.Some? {
      var encoded := CreateContentValues(values.value);
      if encoded.Failure? {
        return Failure(encoded.error);
      }
      contentValues := encoded.value;
    }
    r := resolver.Insert(uri, contentValues);
  }
}
