/**
 * `Logger` as src/logger.ts writes it: a threshold that defaults to DEBUG, four fixed-level
 * entry points into one gated `log`, and `export`, which renders a query as CSV or JSON.
 */
module Logger {
  import opened Wrappers
  import opened JsValues
  import opened DbAdapter
  import ExportHandler
  import Text

  // `LogLevel`
  const DEBUG := 0
  const INFO := 1
  const WARN := 2
  const ERROR := 3

  /** `entry.context ? JSON.stringify(entry.context) : undefined`. */
  function Context(rt: Runtime, c: JsValue): (r: JsValue)
    ensures !IsObject(r)
    ensures !Truthy(c) ==> r == Undefined
  {
    if Truthy(c) then Str(rt.stringify(c)) else Undefined
  }

  /** What `log` hands to `saveLog` AS WRITTEN: the timestamp is `toISOString()` text. */
  function SaveEntryAsWritten(rt: Runtime, level: int, message: string, c: JsValue, now: int): LogEntryDB {
    LogEntryDB(level, message, StringStamp(rt.isoTime(now)), Context(rt, c))
  }

  /** What `log` hands to `saveLog` in this model: the call-time Date itself. */
  function SaveEntry(rt: Runtime, level: int, message: string, c: JsValue, now: int): LogEntryDB {
    LogEntryDB(level, message, DateStamp(now), Context(rt, c))
  }

  /** As written, every write is lost: saveLog calls `getTime()` on the ISO text, which
      throws TypeError, and the store is left as it was. */
  lemma IsoHandOffRejected(rt: Runtime, st: Store, level: int, message: string, c: JsValue, now: int)
    requires rt.isoTime(now) != ""
    ensures AfterSave(rt, st, SaveEntryAsWritten(rt, level, message, c, now), now) == (Failure(TypeError), st)
  {
  }

  /** Handing over the Date stores the record under a fresh key with the call time. */
  lemma DateHandOffStored(rt: Runtime, st: Store, level: int, message: string, c: JsValue, now: int)
    requires WellFormed(st)
    ensures AfterSave(rt, st, SaveEntry(rt, level, message, c, now), now).0 == Success(st.nextId)
    ensures StoredRecord(st.nextId, level, message, now, Context(rt, c))
            in AfterSave(rt, st, SaveEntry(rt, level, message, c, now), now).1.records
  {
    SaveStampsTime(rt, st, SaveEntry(rt, level, message, c, now), now);
  }

  /** `log(level, message, context)` at time `now` under `threshold`: the store afterwards. */
  function LogStep(rt: Runtime, st: Store, threshold: int, level: int, message: string, c: JsValue, now: int): Store {
    if level < threshold then st else AfterSave(rt, st, SaveEntry(rt, level, message, c, now), now).1
  }

  /** Below the threshold `log` is a no-op: the store is untouched. */
  lemma GateBlocks(rt: Runtime, st: Store, threshold: int, level: int, message: string, c: JsValue, now: int)
    requires level < threshold
    ensures LogStep(rt, st, threshold, level, message, c, now) == st
  {
  }

  /** At or above the threshold `log` stores exactly one new record, under a fresh key, with
      the call's level and message, the call time, and the encoded context; every earlier
      record stays. */
  lemma GatePasses(rt: Runtime, st: Store, threshold: int, level: int, message: string, c: JsValue, now: int)
    requires WellFormed(st) && level >= threshold
    ensures var after := LogStep(rt, st, threshold, level, message, c, now);
      && WellFormed(after)
      && after.nextId == st.nextId + 1
      && StoredRecord(st.nextId, level, message, now, Context(rt, c)) in after.records
      && (forall r | r in st.records :: r in after.records && r.id != st.nextId)
      && (forall r | r in after.records :: r in st.records || r.id == st.nextId)
  {
    var entry := SaveEntry(rt, level, message, c, now);
    SaveFresh(rt, st, entry, now);
    SaveStampsTime(rt, st, entry, now);
  }

  /** With the default threshold every level from DEBUG to ERROR is stored. */
  lemma DefaultThresholdAdmitsAll(rt: Runtime, st: Store, level: int, message: string, c: JsValue, now: int)
    requires DEBUG <= level <= ERROR
    ensures LogStep(rt, st, Option<int>.None.GetOr(DEBUG), level, message, c, now).nextId == st.nextId + 1
  {
  }

  /** A truthy JSON-safe object context is stored as its JSON text and reads back equal. */
  lemma ContextRoundTrip(rt: Runtime, c: JsValue)
    requires JsonLaws(rt) && IsObject(c) && Truthy(c) && JsonSafe(c)
    ensures EncodeContext(rt, Context(rt, c)) == Str(rt.stringify(c))
    ensures DecodeContext(rt, EncodeContext(rt, Context(rt, c))) == Some(c)
  {
    DbAdapter.ContextRoundTrip(rt, c);
  }

  /** The file `export` offers for download. */
  datatype Download = Download(content: string, mimeType: string)

  /** `export`'s format selection: CSV with `text/csv` for 'csv', JSON with
      `application/json` for anything else. */
  function Render(rt: Runtime, format: string, views: seq<LogView>): (d: Download)
    ensures d.mimeType == "text/csv" <==> format == "csv"
    ensures d.mimeType != "text/csv" ==> d.mimeType == "application/json"
    ensures format == "csv" ==> d.content == ExportHandler.ToCSV(rt.stringify, Rows(rt, views))
    ensures format != "csv" ==> d.content == rt.prettyJson(Arr(seq(|views|, i requires 0 <= i < |views| => Obj(ViewObject(rt, views[i])))))
  {
    if format == "csv" then
      Download(ExportHandler.ToCSV(rt.stringify, Rows(rt, views)), "text/csv")
    else
      Download(rt.prettyJson(Arr(seq(|views|, i requires 0 <= i < |views| => Obj(ViewObject(rt, views[i]))))), "application/json")
  }

  function Rows(rt: Runtime, views: seq<LogView>): (rows: seq<ExportHandler.Row>)
    ensures |rows| == |views|
  {
    seq(|views|, i requires 0 <= i < |views| => ViewObject(rt, views[i]))
  }

  /** A CSV export of no records is empty. */
  lemma CsvExportEmpty(rt: Runtime)
    ensures Render(rt, "csv", []).content == ""
  {
    assert Render(rt, "csv", []).content == ExportHandler.ToCSV(rt.stringify, Rows(rt, []));
  }

  /** A CSV export of some records starts with the header naming the fields of a stored
      record, in the order getLogs writes them. */
  lemma CsvExportHeader(rt: Runtime, views: seq<LogView>)
    requires views != []
    ensures Text.Split(Text.Split(Render(rt, "csv", views).content, '\n')[0], ',')
      == ["level", "message", "timestamp", "context", "id"]
  {
    var rows := Rows(rt, views);
    assert Render(rt, "csv", views).content == ExportHandler.ToCSV(rt.stringify, rows);
    var keys := ExportHandler.Keys(ViewObject(rt, views[0]));
    ViewKeys(rt, views[0]);
    assert rows[0] == ViewObject(rt, views[0]);
    ExportHandler.CsvHeader(rt.stringify, rows);
    Text.SplitJoin(keys, ',');
  }

  lemma ViewKeys(rt: Runtime, v: LogView)
    ensures ExportHandler.Keys(ViewObject(rt, v)) == ["level", "message", "timestamp", "context", "id"]
    ensures forall k | k in ExportHandler.Keys(ViewObject(rt, v)) :: '\n' !in k && ',' !in k
  {
  }

  class Logger {
    const level: int
    const dbAdapter: IDBAdapter

    ghost predicate Valid()
      reads this, dbAdapter
    {
      dbAdapter.Valid()
    }

    /** `new Logger(level = LogLevel.DEBUG)`, which opens a new adapter. */
    constructor (level: Option<int>)
      ensures Valid() && fresh(dbAdapter)
      ensures this.level == level.GetOr(DEBUG)
      ensures dbAdapter.State() == Store([], FirstKey)
    {
      this.level := level.GetOr(DEBUG);
      dbAdapter := new IDBAdapter();
    }

    /** The private `log`: drop the call below the threshold, otherwise save the entry
        stamped with the call time `now`. */
    method Log(rt: Runtime, level: int, message: string, c: JsValue, now: int)
      requires Valid()
      modifies dbAdapter
      ensures Valid()
      ensures dbAdapter.State() == LogStep(rt, old(dbAdapter.State()), this.level, level, message, c, now)
    {
      if level < this.level {
        return;
      }
      var _ := dbAdapter.SaveLog(rt, SaveEntry(rt, level, message, c, now), now);
    }

    method Debug(rt: Runtime, message: string, c: JsValue, now: int)
      requires Valid()
      modifies dbAdapter
      ensures Valid()
      ensures dbAdapter.State() == LogStep(rt, old(dbAdapter.State()), level, DEBUG, message, c, now)
    {
      Log(rt, DEBUG, message, c, now);
    }

    method Info(rt: Runtime, message: string, c: JsValue, now: int)
      requires Valid()
      modifies dbAdapter
      ensures Valid()
      ensures dbAdapter.State() == LogStep(rt, old(dbAdapter.State()), level, INFO, message, c, now)
    {
      Log(rt, INFO, message, c, now);
    }

    method Warn(rt: Runtime, message: string, c: JsValue, now: int)
      requires Valid()
      modifies dbAdapter
      ensures Valid()
      ensures dbAdapter.State() == LogStep(rt, old(dbAdapter.State()), level, WARN, message, c, now)
    {
      Log(rt, WARN, message, c, now);
    }

    method Error(rt: Runtime, message: string, c: JsValue, now: int)
      requires Valid()
      modifies dbAdapter
      ensures Valid()
      ensures dbAdapter.State() == LogStep(rt, old(dbAdapter.State()), level, ERROR, message, c, now)
    {
      Log(rt, ERROR, message, c, now);
    }

    /** `export(format = 'json', start, end, minLevel)`: query, then render; a failed query
        fails the export. */
    method Export(rt: Runtime, format: Option<string>, start: Option<int>, end: Option<int>, minLevel: Option<int>)
      returns (r: Result<Download, StoreError>)
      requires Valid()
      ensures r.Failure? <==> Query(rt, dbAdapter.State(), start, end, minLevel).Failure?
      ensures r.Failure? ==> r.error == Query(rt, dbAdapter.State(), start, end, minLevel).error
      ensures r.Success? ==> r.value == Render(rt, format.GetOr("json"), Query(rt, dbAdapter.State(), start, end, minLevel).value)
    {
      var logs := dbAdapter.GetLogs(rt, start, end, minLevel);
      if logs.Failure? {
        return Failure(logs.error);
      }
      r := Success(Render(rt, format.GetOr("json"), logs.value));
    }
  }
}
