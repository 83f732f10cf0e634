# b-logger: the log store and the level-gated logger, in Dafny

b-logger is a browser logger. Each call to `debug`, `info`, `warn` or `error` is checked
against the logger's threshold. A call that passes is written to an IndexedDB object store
(`logsDB` / `logEntries`). Each record gets an auto-incremented `id` and is indexed by its
epoch-millisecond timestamp (`timestamp_idx`). Records can be read back by time range and
minimum level, deleted by time range, and exported as CSV or JSON.

This project models:

- `IDBAdapter` (src/db-adapter.ts; dist/db-adapter.js is the same code compiled, with
  `saveLog` at lines 21-34, `getLogs` at 35-62 and `deleteLogs` at 63-83). It is module
  `DbAdapter`. The pure functions `AfterSave`, `Query` and `AfterDelete` say what each
  operation does to a `Store`. A `Store` is the records in `timestamp_idx` cursor order
  (timestamp ascending, then id ascending) plus the key generator's next key. The class
  `IDBAdapter` does the same work step by step: its cursor loops seek past the open lower
  bound and walk up to the closed upper bound. Each method is proved equal to its function.
- `ExportHandler.toCSV` (src/export-handler.ts), module `ExportHandler`.
- `Logger` from src/logger.ts, module `Logger`: threshold default DEBUG, the four level
  methods, the gated `log`, and `export`'s format selection. One line is corrected rather
  than modelled as written: the class's `log` hands `saveLog` the Date, where
  src/logger.ts:55 hands over its ISO text, which makes every save fail (see "## Findings").
- `Logger` as dist/logger.js has it, module `DistLogger`: threshold `options.level || INFO`,
  the optional print sink and `defaultFormat`, pass-through of string contexts, and
  `clearLogs`/`getLogs` forwarding.

Host facilities the code calls become parameters. `JSON.stringify`, `JSON.parse`,
`JSON.stringify(x, null, 2)`, `toLocaleString` and `toISOString` are the fields of a
`Runtime` value. The current time is an `int` argument `now`. Properties that need JSON to
round-trip take `JsonLaws(rt)` as a hypothesis: parsing the text of a JSON-safe object gives
the object back, and that text is never empty. JSON-safe means no `undefined` inside, only
integers a double holds exactly, and objects with distinct keys, none of them all digits.
`JSON.parse` can meet this: it never produces repeated keys, and without integer-like keys
it keeps the keys in the order the text lists them.

The model follows the code in these choices, which a reader might not expect:

- A missing `startTime` or `endTime` does not mean "unbounded". `IDBKeyRange.bound` with
  `undefined` throws DataError, so `getLogs()` and `deleteLogs()` with no bounds reject.
- The lower bound is open and the upper bound is closed (`start < ts <= end`).
  `start >= end` is a DataError.
- dist/logger.js treats `level: DEBUG` (0) like no level at all: the threshold becomes INFO.
- A stored context that is not JSON text makes `JSON.parse` throw inside the cursor
  callback when the record is in range and passes the level filter. The `getLogs` promise then never settles. The model returns `ParseFailure`.

## Model

| member | source | states |
|---|---|---|
| DbAdapter.StoredTimestamp | src/db-adapter.ts:45 | A missing or empty-string stamp is stored as the call time. A Date is stored as its epoch value. Any other string has no `getTime` and fails with TypeError. |
| DbAdapter.EncodeContext | src/db-adapter.ts:46 | Object-typed contexts (objects, arrays, null) are stored as JSON text. Everything else is stored unchanged. Nothing object-typed is ever stored. |
| DbAdapter.DecodeContext | src/db-adapter.ts:79 | A falsy stored context reads back as `undefined`. |
| DbAdapter.EncodeIdempotent | src/db-adapter.ts:46 | A context the logger already stringified goes through the store's encoding unchanged. |
| DbAdapter.ContextRoundTrip | src/db-adapter.ts:43-80 | A JSON-safe object context, saved and then read, comes back structurally equal. |
| DbAdapter.Bound | src/db-adapter.ts:60-65 | The key range is valid exactly when both bounds are given and `start < end`. Otherwise it is a DataError. |
| DbAdapter.SeekAfter | src/db-adapter.ts:28 | Finds a position where every entry before it has a timestamp at or below `t` and the entry at it (if any) is later. In an ordered store every entry from there on is later (`SeekAfterOrdered`). |
| DbAdapter.SeekAfterOrdered | src/db-adapter.ts:28 | In a store kept in index order, every entry from the seek position on is later than `t`. |
| DbAdapter.Insert | src/db-adapter.ts:43 | Adds exactly the new record to the store and changes nothing else (multiset equality). |
| DbAdapter.InsertWellFormed | src/db-adapter.ts:24-28 | A record with a fresh, largest key lands in index order, and the store stays well-formed. |
| DbAdapter.AfterSave | src/db-adapter.ts:37-51 | `saveLog` fails exactly when the timestamp cannot be read, and then the store is unchanged. On success it returns the next generated key, advances the generator and adds exactly one record. |
| DbAdapter.SaveFresh | src/db-adapter.ts:24-28 | After a save the store is still ordered and well-formed. The new key is held by no earlier record. Every earlier record survives, and nothing else is added. |
| DbAdapter.SaveStampsTime | src/db-adapter.ts:45 | A save whose stamp is not a string always succeeds. The stored record carries the entry's Date, or the call time when there is no Date. |
| DbAdapter.SaveLatest | src/db-adapter.ts:28 | A save stamped no earlier than every stored record goes at the end of the index under the next key. |
| DbAdapter.SelectMembers | src/db-adapter.ts:71-82 | The cursor walk keeps exactly the records with `start < ts <= end` that pass the `!minLevel \|\| level >= minLevel` filter. |
| DbAdapter.SelectOrdered | src/db-adapter.ts:69-82 | The records the walk keeps stay in index order. |
| DbAdapter.DecodeAll | src/db-adapter.ts:73-80 | Reading back succeeds exactly when every kept context parses. The result then has one view per record, in order, with that record's parsed context. Any failure is ParseFailure. |
| DbAdapter.WalkedDecodesSelection | src/db-adapter.ts:71-86 | The one-pass cursor walk (skip, or push with the context parsed, or stop at a parse failure) gives the same result as selecting the records first and then decoding them. |
| DbAdapter.Query | src/db-adapter.ts:54-88 | `getLogs` fails with DataError exactly when the bounds are invalid. Its only other failure is a context that does not parse. |
| DbAdapter.QuerySound | src/db-adapter.ts:60-80 | Every view returned is a stored record with `start < ts <= end` that passes the level filter. |
| DbAdapter.QueryComplete | src/db-adapter.ts:60-80 | A stored record has a view in the result if and only if it is in the range and passes the level filter. |
| DbAdapter.QueryOrdered | src/db-adapter.ts:58-69 | Views come back in ascending timestamp order, ties broken by ascending id. |
| DbAdapter.SaveThenQuery | src/db-adapter.ts:43-80 | After a save, a query whose range and level filter include the new record fails with ParseFailure if the stored context does not parse back. Whenever it succeeds it returns the record under the new key, with its level, message, stored time and parsed context. For a host whose JSON round-trips, an object context comes back structurally equal. |
| DbAdapter.StringContextBreaksQuery | src/db-adapter.ts:46-79 | A string context that is not JSON is stored verbatim. Every query whose range includes that record and whose level filter keeps it then fails. |
| DbAdapter.FilteredNotParsed | src/db-adapter.ts:75-79 | The level filter runs before the context is parsed: an in-range record with a non-JSON context that the minimum level drops does not make the query fail. |
| DbAdapter.UnparsableFails | src/db-adapter.ts:79 | One kept record whose context does not parse fails the whole query. |
| DbAdapter.FourSelected | src/db-adapter.ts:60-82 | Take one record per level at times t0<t1<t2<t3. Over (t0, t3] with minimum level INFO, the walk keeps the last three records. The open lower bound drops the t0 record, and the closed upper bound keeps the t3 record. |
| DbAdapter.FourLevels | src/db-adapter.ts:54-88 | For the same four records, querying from t0 to t3 at minimum level INFO returns the INFO, WARN and ERROR records in order. |
| DbAdapter.KeepMembers | src/db-adapter.ts:103-113 | The delete walk keeps exactly the records outside `start < ts <= end`. |
| DbAdapter.KeepWellFormed | src/db-adapter.ts:103-113 | Deleting a range leaves the store ordered and well-formed. |
| DbAdapter.AfterDelete | src/db-adapter.ts:90-116 | `deleteLogs` fails with DataError exactly when the bounds are invalid, and then nothing is deleted. It never changes the key generator. |
| DbAdapter.DeleteExact | src/db-adapter.ts:96-113 | Exactly the in-range records are removed and every other record survives. Kept plus removed equals the old count. |
| DbAdapter.DeleteThenQueryEmpty | src/db-adapter.ts:90-116 | After a successful `deleteLogs(start, end)`, `getLogs(start, end, minLevel)` returns nothing, for any level filter. |
| DbAdapter.IDBAdapter.constructor | src/db-adapter.ts:17-35 | A newly created database holds an empty, well-formed store whose key generator starts at 1. |
| DbAdapter.IDBAdapter.SaveLog | src/db-adapter.ts:37-51 | The outcome and the new state are those `AfterSave` describes, and the store stays well-formed. |
| DbAdapter.IDBAdapter.OpenCursor | src/db-adapter.ts:69 | The cursor opens on the first record above the open lower bound. Every earlier record is at or below the bound. |
| DbAdapter.IDBAdapter.Walk | src/db-adapter.ts:71-86 | The callbacks run from the cursor's opening position. On success they have pushed exactly the one-pass walk of the records before the stop position, and the stop position is the first record past the upper bound (or the end). On failure, the record at the stop position is selected and its context does not parse. |
| DbAdapter.IDBAdapter.Visit | src/db-adapter.ts:72-82 | One callback on an in-range record extends the one-pass walk by that record. A failure happens only when the record passes the level filter and its context does not parse. |
| DbAdapter.IDBAdapter.GetLogs | src/db-adapter.ts:54-88 | The result equals `Query` on the current store. |
| DbAdapter.IDBAdapter.DeleteLogs | src/db-adapter.ts:90-116 | Deleting and then continuing the cursor in one pass gives exactly `AfterDelete`: no in-range record is skipped, and the store stays well-formed. |
| DbAdapter.IDBAdapter.DeleteFrom | src/db-adapter.ts:104-113 | Deleting and then continuing from the cursor's position cuts out exactly the block of in-range records that starts there. It stops at the first record past the upper bound (or the end) and leaves the key generator alone. |
| ExportHandler.Cell | src/export-handler.ts:12 | An object-typed value is written as its JSON text, a string as itself and `undefined` as nothing. Nothing is quoted. |
| ExportHandler.ToCSV | src/export-handler.ts:6-16 | The CSV text is empty exactly when there are no records. |
| ExportHandler.CsvLines | src/export-handler.ts:9-15 | If no key or field contains a newline, the text splits into the header plus exactly one line per record, in input order. |
| ExportHandler.CsvHeader | src/export-handler.ts:9 | The first line is the first record's keys joined by commas. |
| ExportHandler.CsvFields | src/export-handler.ts:11-14 | If no field contains a comma, a record's line splits back into its fields. |
| ExportHandler.CsvCommaNotQuoted | src/export-handler.ts:12-14 | A message `a,b` reads back as two fields under a one-column header, because fields are not quoted. |
| Logger.Context | src/logger.ts:56 | A truthy context is stored as its JSON text. A falsy one is stored as `undefined`. |
| Logger.IsoHandOffRejected | src/logger.ts:53-57 | As written, handing `toISOString()` text to `saveLog` fails with TypeError and stores nothing. |
| Logger.DateHandOffStored | src/logger.ts:46-57 | Handing over the Date stores the record under the next key with the call time. |
| Logger.GateBlocks | src/logger.ts:44 | A call below the threshold leaves the store unchanged. |
| Logger.GatePasses | src/logger.ts:43-58 | A call at or above the threshold adds exactly one record under a fresh key, with the call's level, message, time and encoded context. Every earlier record stays, and the store stays well-formed. |
| Logger.DefaultThresholdAdmitsAll | src/logger.ts:22-25 | With the default threshold, every level from DEBUG to ERROR is stored. |
| Logger.ContextRoundTrip | src/logger.ts:56 | A truthy JSON-safe object context is stored as its JSON text and reads back equal. |
| Logger.Render | src/logger.ts:66-72 | Format `csv` gives the CSV text with `text/csv`. Any other format gives pretty JSON with `application/json`. |
| Logger.CsvExportEmpty | src/logger.ts:66-68 | A CSV export of no records is empty. |
| Logger.CsvExportHeader | src/logger.ts:61-68 | A CSV export of at least one record starts with the header `level,message,timestamp,context,id`. |
| Logger.ViewKeys | src/db-adapter.ts:76-80 | The object `getLogs` pushes has the keys level, message, timestamp, context, id, in that order. |
| Logger.Logger.constructor | src/logger.ts:22-25 | The threshold is the given level, or DEBUG if none is given. The logger opens a fresh, empty store. |
| Logger.Logger.Log | src/logger.ts:43-58 | The new store is the gated save of the entry, handed over with the call time as a Date (the corrected line 55). |
| Logger.Logger.Debug | src/logger.ts:27-29 | Same as `log` at level DEBUG. |
| Logger.Logger.Info | src/logger.ts:31-33 | Same as `log` at level INFO. |
| Logger.Logger.Warn | src/logger.ts:35-37 | Same as `log` at level WARN. |
| Logger.Logger.Error | src/logger.ts:39-41 | Same as `log` at level ERROR. |
| Logger.Logger.Export | src/logger.ts:60-72 | The export fails exactly when the query fails, with the same error. Otherwise it is the query's records rendered in the requested format (default `json`). |
| DistLogger.Threshold | dist/logger.js:16 | The threshold is never DEBUG. A missing level or level 0 gives INFO; any other level is kept. |
| DistLogger.DebugBecomesInfo | dist/logger.js:16 | Leaving the level out and asking for DEBUG give the same threshold, INFO. |
| DistLogger.DefaultFormat | dist/logger.js:10-12 | The printed line starts with the level's name and ends with the message. |
| DistLogger.Context | dist/logger.js:44 | Object-typed contexts are stringified. Strings and other values pass through unchanged. |
| DistLogger.Printed | dist/logger.js:41 | Exactly one formatted line is printed when a sink is set and the call passes the gate. Otherwise nothing is printed. |
| DistLogger.DebugDropped | dist/logger.js:32-34 | With a missing level or any of the four levels, `debug` neither prints nor stores. |
| DistLogger.GatePasses | dist/logger.js:32-46 | A call at or above the threshold adds exactly one record under a fresh key, with the context flattened once. Every earlier record stays, and the store stays well-formed. |
| DistLogger.ContextStored | dist/logger.js:42-45 | A string context is stored verbatim. A JSON-safe object context reads back equal. |
| DistLogger.Logger.constructor | dist/logger.js:14-19 | The threshold is `options.level \|\| INFO`. Nothing has been printed yet. The logger opens a fresh, empty store. |
| DistLogger.Logger.Log | dist/logger.js:32-46 | The print transcript grows by `Printed`, and the store becomes the gated save. |
| DistLogger.Logger.Debug | dist/logger.js:20-22 | Same as `log` at level DEBUG. |
| DistLogger.Logger.Info | dist/logger.js:23-25 | Same as `log` at level INFO. |
| DistLogger.Logger.Warn | dist/logger.js:26-28 | Same as `log` at level WARN. |
| DistLogger.Logger.Error | dist/logger.js:29-31 | Same as `log` at level ERROR. |
| DistLogger.Logger.ClearLogs | dist/logger.js:47-49 | Forwards to `deleteLogs`: the outcome and the store are those `AfterDelete` gives. |
| DistLogger.Logger.GetLogs | dist/logger.js:50-52 | Forwards to `getLogs`: the result is `Query` on the current store. |
| DistLogger.Logger.Export | dist/logger.js:53-64 | Fails exactly when the query fails. Otherwise it renders the query's records, choosing the format as src/logger.ts does. |

## Left out

- Opening the database (`indexedDB.open`, the version-2 upgrade, `onerror`) is not modelled. Data persisting across page loads is not modelled either. Each logger starts on a new, empty store.
- Asynchrony and transactions are not modelled: `await`, promise settling, and interleaving between concurrent calls. Each operation is one atomic step. A promise that never settles is shown as `ParseFailure`.
- Engine write failures (quota, `WriteFailed`) are not modelled. `saveLog` only fails here when the timestamp cannot be read, which throws while the record for `store.add` is being built.
- `JSON.stringify`, `JSON.parse`, pretty JSON (`toJSON`), `toLocaleString` and `toISOString` are opaque functions in `Runtime`. Their text formats are not modelled. Round-trip properties assume `JsonLaws`.
- JavaScript numbers are modelled as integers: no NaN, no fractions, no `-0`. Levels and timestamps are `int`.
- Object key order is kept as written. The rule that integer-like keys sort first is not modelled; `JsonSafe` excludes such keys, so the round-trip properties do not cover contexts that have them. Callers of `saveLog` that supply their own `id` property are not modelled.
- `export` only builds the file content and MIME type. Creating the `Blob` and anchor, naming the download and clicking it are left out.
- In dist/logger.js the sink's side effects are not modelled: the sink is a transcript of lines. A sink that throws (which would skip the save) is not modelled.
- `LogView` keeps the epoch timestamp. The locale string `getLogs` puts in its place appears only in `ViewObject`.
- Logger.Logger.Log: the class stores through the Date hand-off of dist/logger.js:42-45, not through src/logger.ts:55 as written. The as-written hand-off is modelled only by `Logger.IsoHandOffRejected`, which shows it stores nothing.
- The TypeScript declaration files (dist/*.d.ts) and examples/usage.js declare or exercise the same code and are not part of this model.

## Findings

| source | as written | input that shows it | evidently intended | confidence | as-written member | corrected member |
|---|---|---|---|---|---|---|
| src/logger.ts:55 | `log` sends `timestamp: entry.timestamp.toISOString()`, a string, to `saveLog`. `saveLog` then calls `.getTime()` on it (src/db-adapter.ts:45), which throws TypeError, so nothing is ever stored. | `new Logger().info("x")` at any time: the ISO text is non-empty, so the `\|\|` keeps it. | Pass the Date itself, as dist/logger.js:42-45 does, so the record is stored with its call time. | not executed | Logger.IsoHandOffRejected | Logger.DateHandOffStored |
