/**
 * `QueryArgs` and `createQueryArgs`: the thirteen optional query options are written into a
 * `Bundle` under the platform key of the same name, each with its own kind, and an absent
 * option writes nothing.
 */
module QueryArgsEncoding {
  import opened Wrappers
  import opened Numbers
  import opened Android

  /** The `QueryArgs` record; every field is nullable. */
  datatype QueryArgs = QueryArgs(
    groupColumns: Option<seq<string>>,
    sortColumns: Option<seq<string>>,
    sqlSelectionArgs: Option<seq<string>>,
    limit: Option<Int32>,
    offset: Option<Int32>,
    sortDirection: Option<Int32>,
    sortCollation: Option<string>,
    sortLocale: Option<string>,
    sqlGroupBy: Option<string>,
    sqlHaving: Option<string>,
    sqlLimit: Option<string>,
    sqlSelection: Option<string>,
    sqlSortOrder: Option<string>)

  /** The three kinds of bundle entry. */
  datatype ArgKind = StringArrayKind | IntKind | StringKind

  function KindOf(v: BundleValue): ArgKind
  {
    match v
    case StringArrayArg(_) => StringArrayKind
    case IntArg(_) => IntKind
    case StringArg(_) => StringKind
  }

  /** The kind each key's field is declared with in `QueryArgs`. */
  function DeclaredKind(k: QueryArgKey): ArgKind
  {
    match k
    case GroupColumns | SortColumns | SqlSelectionArgs => StringArrayKind
    case Limit | Offset | SortDirection => IntKind
    case SortCollation | SortLocale | SqlGroupBy | SqlHaving | SqlLimit | SqlSelection | SqlSortOrder => StringKind
  }

  const AllKeys: set<QueryArgKey> :=
    {GroupColumns, SortColumns, SqlSelectionArgs, Limit, Offset, SortDirection,
     SortCollation, SortLocale, SqlGroupBy, SqlHaving, SqlLimit, SqlSelection, SqlSortOrder}

  function ArrayField(o: Option<seq<string>>): Option<BundleValue>
  {
    if o.Some? then Some(StringArrayArg(o.value)) else None
  }

  function IntField(o: Option<Int32>): Option<BundleValue>
  {
    if o.Some? then Some(IntArg(o.value)) else None
  }

  function StringField(o: Option<string>): Option<BundleValue>
  {
    if o.Some? then Some(StringArg(o.value)) else None
  }

  /** The field→key table: the entry a field contributes under its key, if the field is set. */
  function FieldOf(q: QueryArgs, k: QueryArgKey): Option<BundleValue>
  {
    match k
    case GroupColumns => ArrayField(q.groupColumns)
    case SortColumns => ArrayField(q.sortColumns)
    case SqlSelectionArgs => ArrayField(q.sqlSelectionArgs)
    case Limit => IntField(q.limit)
    case Offset => IntField(q.offset)
    case SortDirection => IntField(q.sortDirection)
    case SortCollation => StringField(q.sortCollation)
    case SortLocale => StringField(q.sortLocale)
    case SqlGroupBy => StringField(q.sqlGroupBy)
    case SqlHaving => StringField(q.sqlHaving)
    case SqlLimit => StringField(q.sqlLimit)
    case SqlSelection => StringField(q.sqlSelection)
    case SqlSortOrder => StringField(q.sqlSortOrder)
  }

  /** The bundle the query options describe: one entry per set field, nothing else. */
  function QueryArgsBundle(q: QueryArgs): map<QueryArgKey, BundleValue>
  {
    map k | k in AllKeys && FieldOf(q, k).Some? :: FieldOf(q, k).value
  }

  /** What a provider reads back out of a bundle: each key at its declared kind, else null. */
  function ParseQueryArgs(m: map<QueryArgKey, BundleValue>): QueryArgs
  {
    QueryArgs(
      groupColumns := ReadArray(m, GroupColumns),
      sortColumns := ReadArray(m, SortColumns),
      sqlSelectionArgs := ReadArray(m, SqlSelectionArgs),
      limit := ReadInt(m, Limit),
      offset := ReadInt(m, Offset),
      sortDirection := ReadInt(m, SortDirection),
      sortCollation := ReadString(m, SortCollation),
      sortLocale := ReadString(m, SortLocale),
      sqlGroupBy := ReadString(m, SqlGroupBy),
      sqlHaving := ReadString(m, SqlHaving),
      sqlLimit := ReadString(m, SqlLimit),
      sqlSelection := ReadString(m, SqlSelection),
      sqlSortOrder := ReadString(m, SqlSortOrder))
  }

  function ReadArray(m: map<QueryArgKey, BundleValue>, k: QueryArgKey): Option<seq<string>>
  {
    if k in m && m[k].StringArrayArg? then Some(m[k].strings) else None
  }

  function ReadInt(m: map<QueryArgKey, BundleValue>, k: QueryArgKey): Option<Int32>
  {
    if k in m && m[k].IntArg? then Some(m[k].int32) else None
  }

  function ReadString(m: map<QueryArgKey, BundleValue>, k: QueryArgKey): Option<string>
  {
    if k in m && m[k].StringArg? then Some(m[k].text) else None
  }

  /** A bundle whose every entry has the kind its key is declared with. */
  predicate WellKinded(m: map<QueryArgKey, BundleValue>)
  {
    forall k :: k in m ==> KindOf(m[k]) == DeclaredKind(k)
  }

  lemma AllKeysComplete(k: QueryArgKey)
    ensures k in AllKeys
  {
  }

  /**
   * Absence invariant and kind preservation: a key is in the bundle exactly when its field is
   * set, it then holds the field's value unchanged, and its kind is the field's declared kind.
   */
  lemma QueryArgsBundleShape(q: QueryArgs, k: QueryArgKey)
    ensures k in QueryArgsBundle(q) <==> FieldOf(q, k).Some?
    ensures k in QueryArgsBundle(q) ==> QueryArgsBundle(q)[k] == FieldOf(q, k).value
    ensures k in QueryArgsBundle(q) ==> KindOf(QueryArgsBundle(q)[k]) == DeclaredKind(k)
  {
    AllKeysComplete(k);
  }

  /** Nothing is lost: reading the bundle back gives the query options that were encoded. */
  lemma QueryArgsRoundTrip(q: QueryArgs)
    ensures WellKinded(QueryArgsBundle(q))
    ensures ParseQueryArgs(QueryArgsBundle(q)) == q
  {
    forall k | k in QueryArgsBundle(q)
      ensures KindOf(QueryArgsBundle(q)[k]) == DeclaredKind(k)
    {
      QueryArgsBundleShape(q, k);
    }
    var m := QueryArgsBundle(q);
    forall k ensures k in m <==> FieldOf(q, k).Some? {
      QueryArgsBundleShape(q, k);
    }
  }

  /** Reading a well-kinded bundle and looking the field up again gives back the entry. */
  lemma ParsedFieldOf(m: map<QueryArgKey, BundleValue>, k: QueryArgKey)
    requires WellKinded(m)
    ensures FieldOf(ParseQueryArgs(m), k) == if k in m then Some(m[k]) else None
  {
  }

  /** Nothing is added: every well-kinded bundle is the encoding of the options read from it. */
  lemma BundleRoundTrip(m: map<QueryArgKey, BundleValue>)
    requires WellKinded(m)
    ensures QueryArgsBundle(ParseQueryArgs(m)) == m
  {
    var q := ParseQueryArgs(m);
    forall k
      ensures k in QueryArgsBundle(q) <==> k in m
      ensures k in m ==> QueryArgsBundle(q)[k] == m[k]
    {
      QueryArgsBundleShape(q, k);
      ParsedFieldOf(m, k);
    }
  }

  /** The position of each `put*` call in `createQueryArgs`. */
  function PutOrder(k: QueryArgKey): (i: nat)
    ensures i < 13
  {
    match k
    case GroupColumns => 0
    case SortColumns => 1
    case SqlSelectionArgs => 2
    case Limit => 3
    case Offset => 4
    case SortDirection => 5
    case SortCollation => 6
    case SortLocale => 7
    case SqlGroupBy => 8
    case SqlHaving => 9
    case SqlLimit => 10
    case SqlSelection => 11
    case SqlSortOrder => 12
  }

  /** The bundle after the first `n` `put*` calls. */
  ghost function BundleAfter(q: QueryArgs, n: nat): map<QueryArgKey, BundleValue>
  {
    map k | k in AllKeys && PutOrder(k) < n && FieldOf(q, k).Some? :: FieldOf(q, k).value
  }

  /** The effect of one line of `createQueryArgs`: the field's entry is written if the field is set. */
  function PutField(m: map<QueryArgKey, BundleValue>, q: QueryArgs, k: QueryArgKey): map<QueryArgKey, BundleValue>
  {
    if FieldOf(q, k).Some? then m[k := FieldOf(q, k).value] else m
  }

  lemma BundleAfterStep(q: QueryArgs, k: QueryArgKey, n: nat)
    requires n == PutOrder(k)
    ensures BundleAfter(q, n + 1) == PutField(BundleAfter(q, n), q, k)
  {
    forall k' ensures PutOrder(k') < n + 1 <==> PutOrder(k') < n || k' == k {
    }
    AllKeysComplete(k);
  }

  lemma BundleAfterAll(q: QueryArgs)
    ensures BundleAfter(q, 0) == map[]
    ensures BundleAfter(q, 13) == QueryArgsBundle(q)
  {
  }

  /** One line of `createQueryArgs`: if the field is set, the `put*` call matching its kind. */
  method PutIfSet(bundle: Bundle, q: QueryArgs, key: QueryArgKey)
    modifies bundle
    ensures bundle.entries == PutField(old(bundle.entries), q, key)
  {
    match FieldOf(q, key)
    case None =>
    case Some(StringArrayArg(strings)) => bundle.PutStringArray(key, strings);
    case Some(IntArg(n)) => bundle.PutInt(key, n);
    case Some(StringArg(text)) => bundle.PutString(key, text);
  }

  /** `createQueryArgs`: fills a new bundle with one `put*` call per set field, in source order. */
  method CreateQueryArgs(q: QueryArgs) returns (bundle: Bundle)
    ensures fresh(bundle)
    ensures bundle.entries == QueryArgsBundle(q)
  {
    BundleAfterAll(q);
    bundle := new Bundle();
    assert bundle.entries == BundleAfter(q, 0);
    PutIfSet(bundle, q, GroupColumns);
    BundleAfterStep(q, GroupColumns, 0);
    assert bundle.entries == BundleAfter(q, 1);
    PutIfSet(bundle, q, SortColumns);
    BundleAfterStep(q, SortColumns, 1);
    assert bundle.entries == BundleAfter(q, 2);
    PutIfSet(bundle, q, SqlSelectionArgs);
    BundleAfterStep(q, SqlSelectionArgs, 2);
    assert bundle.entries == BundleAfter(q, 3);
    PutIfSet(bundle, q, Limit);
    BundleAfterStep(q, Limit, 3);
    assert bundle.entries == BundleAfter(q, 4);
    PutIfSet(bundle, q, Offset);
    BundleAfterStep(q, Offset, 4);
    assert bundle.entries == BundleAfter(q, 5);
    PutIfSet(bundle, q, SortDirection);
    BundleAfterStep(q, SortDirection, 5);
    assert bundle.entries == BundleAfter(q, 6);
    PutIfSet(bundle, q, SortCollation);
    BundleAfterStep(q, SortCollation, 6);
    assert bundle.entries == BundleAfter(q, 7);
    PutIfSet(bundle, q, SortLocale);
    BundleAfterStep(q, SortLocale, 7);
    assert bundle.entries == BundleAfter(q, 8);
    PutIfSet(bundle, q, SqlGroupBy);
    BundleAfterStep(q, SqlGroupBy, 8);
    assert bundle.entries == BundleAfter(q, 9);
    PutIfSet(bundle, q, SqlHaving);
    BundleAfterStep(q, SqlHaving, 9);
    assert bundle.entries == BundleAfter(q, 10);
    PutIfSet(bundle, q, SqlLimit);
    BundleAfterStep(q, SqlLimit, 10);
    assert bundle.entries == BundleAfter(q, 11);
    PutIfSet(bundle, q, SqlSelection);
    BundleAfterStep(q, SqlSelection, 11);
    assert bundle.entries == BundleAfter(q, 12);
    PutIfSet(bundle, q, SqlSortOrder);
    BundleAfterStep(q, SqlSortOrder, 12);
    assert bundle.entries == BundleAfter(q, 13);
  }
}
