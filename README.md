# expo-content-resolver bridge, modelled in Dafny

This project models the Android half of the `ContentResolver` native module. The module lets a
React Native app query and insert rows in a platform content provider, such as the MediaStore.
The model covers the three marshalling routines of `ContentResolverModule.kt` and the two entry
points built from them:

- **Query-argument encoder** (`createQueryArgs`). The `QueryArgs` record has thirteen nullable
  fields. Each set field goes into a `Bundle` under its platform key, keeping its kind: string
  array, int or string.
- **Row decoder** (`toRecord`). The cursor's current row becomes a record from column name to
  value. The value depends on the column's type code: null, int, double, string, or a blob read as
  UTF-8 text. Any other type code throws.
- **Insert-value encoder** (`createContentValues`, `putNumber`, `putDouble`). Each insert value
  is stored according to its runtime kind. A double is narrowed to `Long` when it is integral and
  lies within the `Long` range. NaN or an infinity throws.
- **Entry points** `query` and `insert`. Both require the application context. `query` calls
  the content resolver exactly once, decodes every row the cursor returns, and closes that
  cursor on every exit path. `insert` encodes its values first, and calls the content resolver
  once only when every value can be stored.

Layout: `wrappers.dfy` (Option, Result, Outcome), `numbers.dfy` (the JVM numeric kinds),
`errors.dfy` (the exceptions), `android.dfy` (Bundle, ContentValues, Cursor and ContentResolver,
as classes over maps and sequences), `query_args.dfy`, `row_decoding.dfy`,
`double_narrowing.dfy`, `value_encoding.dfy` and `bridge.dfy`.

The framework objects are reduced to what the bridge can observe:

- A `Bundle` and a `ContentValues` are maps from key to a tagged value.
- A `Cursor` is a list of rows with a position and a closed flag.
- A `ContentResolver` answers each request through a function of the whole request history. It
  logs every request, which lets a contract say when the provider was *not* called.
- UTF-8 decoding of a blob is a function parameter.
- What the typed getters (`getInt`, `getDouble`, …) return for a column is part of that column's
  data.

Notes on the code, which the model follows:

- The code takes the sort collation as a `String?` (`ContentResolverModule.kt:20`). The
  TypeScript interface declares it as a numeric enum (`src/ContentResolver.ts:125`).
- The code does not require column names to be unique. A repeated name keeps the later
  column's value.
- The code does not check that the limit or offset is non-negative.

## Model

| member | source | states |
|---|---|---|
| `QueryArgsEncoding.CreateQueryArgs` | android/src/main/java/com/hortemo/contentresolver/ContentResolverModule.kt:62-76 | a fresh bundle whose entries are exactly `QueryArgsBundle(q)`: one entry per set field, under that field's key |
| `QueryArgsEncoding.PutIfSet` | android/src/main/java/com/hortemo/contentresolver/ContentResolverModule.kt:63-75 | one line of the encoder: if the field is set, its key gets the field's value with the field's kind; otherwise the bundle is unchanged |
| `QueryArgsEncoding.QueryArgsBundleShape` | android/src/main/java/com/hortemo/contentresolver/ContentResolverModule.kt:62-76 | absence invariant: a key is in the bundle iff its field is non-null; its entry is then the field's value, unchanged, with the kind the field is declared with |
| `QueryArgsEncoding.QueryArgsRoundTrip` | android/src/main/java/com/hortemo/contentresolver/ContentResolverModule.kt:13-27 | reading each key back at its declared kind gives exactly the `QueryArgs` that were encoded, so no field is lost or confused with another |
| `QueryArgsEncoding.BundleRoundTrip` | android/src/main/java/com/hortemo/contentresolver/ContentResolverModule.kt:62-76 | every bundle whose entries have their declared kinds is the encoding of the options read from it, so the encoder writes nothing else |
| `RowDecoding.DecodeColumn` | android/src/main/java/com/hortemo/contentresolver/ContentResolverModule.kt:82-89 | decoding succeeds iff the type code is NULL, INTEGER, FLOAT, STRING or BLOB; a failure names the type code; each value kind comes only from its own type code and getter (a BLOB from the UTF-8 decoding of the bytes) |
| `RowDecoding.ToRecord` | android/src/main/java/com/hortemo/contentresolver/ContentResolverModule.kt:78-93 | the column loop returns exactly `DecodeRow` of the cursor's current row |
| `RowDecoding.DecodeRowSucceeds` | android/src/main/java/com/hortemo/contentresolver/ContentResolverModule.kt:80-90 | a row decodes iff every column has a supported type code |
| `RowDecoding.DecodeRowFirstFailure` | android/src/main/java/com/hortemo/contentresolver/ContentResolverModule.kt:88 | otherwise the row fails with the type code of its first unsupported column, and no partial record is returned |
| `RowDecoding.DecodeRowKeys` | android/src/main/java/com/hortemo/contentresolver/ContentResolverModule.kt:80-91 | the record's keys are exactly the row's column names |
| `RowDecoding.DecodeRowLastColumnWins` | android/src/main/java/com/hortemo/contentresolver/ContentResolverModule.kt:90 | each name holds the decoded value of the last column with that name |
| `RowDecoding.DecodeRowsInOrder` | android/src/main/java/com/hortemo/contentresolver/ContentResolverModule.kt:45-47 | a successful query gives one record per cursor row, in cursor order, each the decoding of its row |
| `RowDecoding.DecodeRowsSucceeds` | android/src/main/java/com/hortemo/contentresolver/ContentResolverModule.kt:45-47 | a query over a cursor succeeds iff every one of its rows decodes |
| `RowDecoding.DecodeRowsFailure` | android/src/main/java/com/hortemo/contentresolver/ContentResolverModule.kt:45-46 | the first row that fails to decode makes the whole query fail with that row's error |
| `RowDecoding.DecodeRowsStep` | android/src/main/java/com/hortemo/contentresolver/ContentResolverModule.kt:45-47 | appending one decoded row to the collected records leaves the final result unchanged (the `query` loop invariant) |
| `DoubleNarrowing.NarrowDouble` | android/src/main/java/com/hortemo/contentresolver/ContentResolverModule.kt:121-135 | fails iff the value is NaN or infinite, naming key and value; a stored `Long` equals the double exactly; every integral value in the `Long` range is stored as a `Long`; anything else is stored as the same double |
| `DoubleNarrowing.NarrowDoubleStable` | android/src/main/java/com/hortemo/contentresolver/ContentResolverModule.kt:125-133 | narrowing is idempotent: narrowing the stored value again stores the same thing |
| `DoubleNarrowing.NarrowDoubleExamples` | android/src/main/java/com/hortemo/contentresolver/ContentResolverModule.kt:122-134 | 5.0 is stored as the `Long` 5, 5.5 as a double, and NaN and both infinities throw |
| `DoubleNarrowing.LongBoundsAsDoubles` | android/src/main/java/com/hortemo/contentresolver/ContentResolverModule.kt:125 | in binary64, `Long.MAX_VALUE` converts to 2^63 and `Long.MIN_VALUE` converts exactly |
| `DoubleNarrowing.NarrowDoubleAsWritten` | android/src/main/java/com/hortemo/contentresolver/ContentResolverModule.kt:121-135 | `putDouble` as written: fails iff NaN or infinite, naming key and value; otherwise stores the same double, or a `Long` that converts back to that double in binary64 (which need not be equal to it) |
| `DoubleNarrowing.NarrowDoubleAsWrittenStoresWrongLong` | android/src/main/java/com/hortemo/contentresolver/ContentResolverModule.kt:125-131 | the guard as written stores the double 2^63 as the `Long` 2^63 - 1, while the intended rule stores it as a double |
| `DoubleNarrowing.NarrowDoubleAsWrittenAgrees` | android/src/main/java/com/hortemo/contentresolver/ContentResolverModule.kt:121-135 | apart from 2^63, the written guard and the intended rule agree on every value a double can hold |
| `ValueEncoding.ClassifyNumber` | android/src/main/java/com/hortemo/contentresolver/ContentResolverModule.kt:109-119 | `Byte`, `Short`, `Int` and `Long` are stored unchanged at their own width, and a `Float` as a float with no check (not even for NaN); only `Double` and other `Number` kinds go through the narrowing, so only they can fail |
| `ValueEncoding.ClassifyValue` | android/src/main/java/com/hortemo/contentresolver/ContentResolverModule.kt:98-105 | a value is stored iff it is null, String, Boolean, ByteArray or a narrowable Number; any other kind fails naming the key and its class; a number failure names the key and the value; null becomes the explicit null marker; a String, Boolean or ByteArray is stored unchanged at its own kind, and a Number as `ClassifyNumber` decides |
| `ValueEncoding.EncodeValuesSucceeds` | android/src/main/java/com/hortemo/contentresolver/ContentResolverModule.kt:95-107 | the values encode iff every entry can be stored |
| `ValueEncoding.EncodeValuesFirstFailure` | android/src/main/java/com/hortemo/contentresolver/ContentResolverModule.kt:104 | otherwise the first entry that cannot be stored decides the error, which names that entry's key |
| `ValueEncoding.EncodeValuesKeys` | android/src/main/java/com/hortemo/contentresolver/ContentResolverModule.kt:96-106 | the stored keys are exactly the input keys |
| `ValueEncoding.EncodeValuesLastEntryWins` | android/src/main/java/com/hortemo/contentresolver/ContentResolverModule.kt:97-106 | each key holds what its last entry's kind dispatch stores |
| `ValueEncoding.EncodeValuesStep` | android/src/main/java/com/hortemo/contentresolver/ContentResolverModule.kt:97-106 | writing one stored entry leaves the final contents unchanged (the `forEach` loop invariant) |
| `ValueEncoding.PutDouble` | android/src/main/java/com/hortemo/contentresolver/ContentResolverModule.kt:121-135 | writes `NarrowDouble`'s choice under the key, or throws and leaves the container unchanged |
| `ValueEncoding.PutNumber` | android/src/main/java/com/hortemo/contentresolver/ContentResolverModule.kt:109-119 | writes `ClassifyNumber`'s choice under the key, or throws and leaves the container unchanged |
| `ValueEncoding.CreateContentValues` | android/src/main/java/com/hortemo/contentresolver/ContentResolverModule.kt:95-107 | a fresh container holding exactly `EncodeValues(values)`, or that function's failure |
| `Bridge.Query` | android/src/main/java/com/hortemo/contentresolver/ContentResolverModule.kt:33-51 | no context: fails before any provider call. Otherwise: exactly one provider query carrying the encoded bundle. Provider failure: passed on. No cursor: empty list. Cursor: the decoded rows or the first row failure. The cursor the resolver handed out (and logged as handed out) is closed on every exit path |
| `Bridge.Insert` | android/src/main/java/com/hortemo/contentresolver/ContentResolverModule.kt:53-59 | no context: fails. An encoding failure is returned before any provider call (the request log is unchanged). Otherwise exactly one insert, with no container for null values or the encoded values, returning the provider's URI or null |
| `Android.Cursor.MoveToNext` | android/src/main/java/com/hortemo/contentresolver/ContentResolverModule.kt:45 | advances one row, never past the end, and reports whether the cursor is on a row |
| `Android.Cursor.Close` | android/src/main/java/com/hortemo/contentresolver/ContentResolverModule.kt:44 | the cursor is closed |
| `Android.ContentResolver.Query` | android/src/main/java/com/hortemo/contentresolver/ContentResolverModule.kt:39-44 | logs the request with the bundle's contents; returns the provider's failure, null, or a fresh open cursor before its first row, which it logs as handed out |
| `Android.ContentResolver.Insert` | android/src/main/java/com/hortemo/contentresolver/ContentResolverModule.kt:57 | logs the request with the container's contents (or none) and returns the provider's answer |
| `Android.Bundle.PutStringArray` | android/src/main/java/com/hortemo/contentresolver/ContentResolverModule.kt:63-65 | the key now holds the string array |
| `Android.Bundle.PutInt` | android/src/main/java/com/hortemo/contentresolver/ContentResolverModule.kt:66-68 | the key now holds the int |
| `Android.Bundle.PutString` | android/src/main/java/com/hortemo/contentresolver/ContentResolverModule.kt:69-75 | the key now holds the string |
| `Android.ContentValues.Put` | android/src/main/java/com/hortemo/contentresolver/ContentResolverModule.kt:99-103 | the key now holds the value, replacing any earlier one |

## Left out

- The Expo module DSL, the asynchrony of `AsyncFunction`, and `appContext`. The application context
  is an `Option<ContentResolver>`. The conversion of JavaScript arguments into `QueryArgs`, `Uri` and
  `Map<String, Any?>` happens before this code runs and is not modelled.
- The content provider itself: permissions, SQL, sorting, limits, selection. Its answers are
  uninterpreted functions of the request history. So the end-to-end scenarios (insert then query,
  sort order, limit) cannot be derived from this model.
- URI parsing and `Uri.toString()`. A URI is its string.
- IEEE-754 arithmetic. A double is NaN, an infinity or a finite real. Negative zero is not told
  apart, and a `Float` is not distinguished from a double in width. The model includes no rounding
  except integer-to-binary64 conversion, and that only for the finding below.
- NarrowDouble: the model uses the intended guard, not the written one (see Findings). The final
  round-trip test, whether the `Long` converts back to the same double, is left out of it. For an
  integral value that a double holds within the `Long` range, that test always succeeds.
- PutDouble: it writes `NarrowDouble`'s choice, so it too follows the intended guard. On the insert
  path the double 2^63 is therefore stored as a double, where the code stores the `Long` 2^63 - 1.
  `NarrowDoubleAsWritten` models the written guard.
- How the platform's `getInt` narrows a 64-bit column value. This is the `asInt` part of each
  column's data.
- The details of UTF-8 decoding. The decoder is a parameter.
- The iteration order of the insert values' `Map`. The values are given as a sequence in that order.
  The insertion order of keys in the returned record is not modelled either, because a record is a
  map.
- The exception message texts. The errors carry the data the messages show: type code, key, class
  name, value.
- The capacity hint passed to `ContentValues(values.size)`.
- `e2e/App.tsx` (a demo UI and an on-device test) and `src/ContentResolver.ts` (constants and type
  declarations). Neither contains bridge logic.

## Findings

| source | as written | input that shows it | evidently intended | confidence | as-written member | corrected member |
|---|---|---|---|---|---|---|
| android/src/main/java/com/hortemo/contentresolver/ContentResolverModule.kt:125-131 | the range test compares the double with `Long.MAX_VALUE` converted to a double, which is 2^63, so 2^63 passes; `toLong()` saturates to 2^63 - 1, and converting that back rounds to 2^63 again, so the check passes | inserting the number 9223372036854775808 (2^63) stores the `Long` 9223372036854775807 | only an integral value that a `Long` holds exactly is stored as a `Long`; 2^63 is stored as a double | not executed; high (follows from JVM conversion rules) | `DoubleNarrowing.NarrowDoubleAsWrittenStoresWrongLong` | `DoubleNarrowing.NarrowDouble` |
