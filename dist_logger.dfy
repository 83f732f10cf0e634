/**
 * `Logger` as dist/logger.js has it, a later revision of src/logger.ts: options in place of
 * a level argument, a threshold of `options.level || INFO`, an optional print sink that
 * receives a formatted line before the write, object contexts stringified and string
 * contexts passed through, and `clearLogs`/`getLogs` forwarding to the adapter.
 */
module DistLogger {
  import opened Wrappers
  import opened JsValues
  import opened DbAdapter
  import Src = Logger

  /** The constructor's options: `level`, and whether a `log` print sink was supplied. */
  datatype Options = Options(level: Option<int>, hasSink: bool)

  /** `options.level || LogLevel.INFO`. */
  function Threshold(level: Option<int>): (t: int)
    ensures t != Src.DEBUG
    ensures level.Some? && level.value != 0 ==> t == level.value
    ensures level.None? || level.value == 0 ==> t == Src.INFO
  {
    if level.Some? && level.value != 0 then level.value else Src.INFO
  }

  /** Leaving the level out and asking for DEBUG give the same threshold, INFO. */
  lemma DebugBecomesInfo()
    ensures Threshold(None) == Threshold(Some(Src.DEBUG)) == Src.INFO
  {
  }

  /** `LogLevel[level]`: the enum's reverse mapping, `undefined` off the enum. */
  function LevelName(level: int): string {
    if level == Src.DEBUG then "DEBUG"
    else if level == Src.INFO then "INFO"
    else if level == Src.WARN then "WARN"
    else if level == Src.ERROR then "ERROR"
    else "undefined"
  }

  /** `defaultFormat(entry)`: `<LEVELNAME>  [<locale time>]: <message>`. */
  function DefaultFormat(rt: Runtime, level: int, now: int, message: string): (line: string)
    ensures |line| >= |LevelName(level)| + |message|
    ensures line[..|LevelName(level)|] == LevelName(level)
    ensures line[|line| - |message|..] == message
  {
    LevelName(level) + "  [" + rt.localeTime(now) + "]: " + message
  }

  /** `typeof context === 'object' ? JSON.stringify(context) : context`: the same flattening
      `saveLog` applies on its own side. */
  function Context(rt: Runtime, c: JsValue): (r: JsValue)
    ensures !IsObject(r)
    ensures !IsObject(c) ==> r == c
  {
    EncodeContext(rt, c)
  }

  function SaveEntry(rt: Runtime, level: int, message: string, c: JsValue, now: int): LogEntryDB {
    LogEntryDB(level, message, DateStamp(now), Context(rt, c))
  }

  /** `log(level, message, context)` at time `now` under `threshold`: the store afterwards. */
  function LogStep(rt: Runtime, st: Store, threshold: int, level: int, message: string, c: JsValue, now: int): Store {
    if level < threshold then st else AfterSave(rt, st, SaveEntry(rt, level, message, c, now), now).1
  }

  /** The lines `log` hands to the print sink: none below the threshold or without a sink,
      otherwise exactly the one formatted line. */
  function Printed(rt: Runtime, hasSink: bool, threshold: int, level: int, message: string, now: int): (lines: seq<string>)
    ensures |lines| <= 1
    ensures |lines| == 1 <==> hasSink && level >= threshold
    ensures |lines| == 1 ==> lines[0] == DefaultFormat(rt, level, now, message)
  {
    if hasSink && level >= threshold then [DefaultFormat(rt, level, now, message)] else []
  }

  /** Under any threshold from an absent level or one of the four levels, `debug` neither
      prints nor stores. */
  lemma DebugDropped(rt: Runtime, st: Store, options: Options, message: string, c: JsValue, now: int)
    requires options.level.None? || Src.DEBUG <= options.level.value <= Src.ERROR
    ensures LogStep(rt, st, Threshold(options.level), Src.DEBUG, message, c, now) == st
    ensures Printed(rt, options.hasSink, Threshold(options.level), Src.DEBUG, message, now) == []
  {
  }

  /** At or above the threshold `log` stores exactly one new record, under a fresh key, with
      the call's level and message, the call time, and the context flattened once; every
      earlier record stays. */
  lemma GatePasses(rt: Runtime, st: Store, threshold: int, level: int, message: string, c: JsValue, now: int)
    requires WellFormed(st) && level >= threshold
    ensures var after := LogStep(rt, st, threshold, level, message, c, now);
      && WellFormed(after)
      && after.nextId == st.nextId + 1
      && StoredRecord(st.nextId, level, message, now, EncodeContext(rt, c)) in after.records
      && (forall r | r in st.records :: r in after.records && r.id != st.nextId)
      && (forall r | r in after.records :: r in st.records || r.id == st.nextId)
  {
    var entry := SaveEntry(rt, level, message, c, now);
    SaveFresh(rt, st, entry, now);
    SaveStampsTime(rt, st, entry, now);
    EncodeIdempotent(rt, c);
  }

  /** A JSON-safe object context (null included) reads back equal; a string context is
      stored verbatim. */
  lemma ContextStored(rt: Runtime, c: JsValue)
    ensures c.Str? ==> EncodeContext(rt, Context(rt, c)) == c
    ensures JsonLaws(rt) && IsObject(c) && JsonSafe(c) ==>
      DecodeContext(rt, EncodeContext(rt, Context(rt, c))) == Some(c)
  {
    if JsonLaws(rt) && IsObject(c) && JsonSafe(c) {
      DbAdapter.ContextRoundTrip(rt, c);
    }
  }

  class Logger {
    const level: int
    const hasSink: bool
    /** The lines handed to the print sink so far. */
    var printed: seq<string>
    const dbAdapter: IDBAdapter

    ghost predicate Valid()
      reads this, dbAdapter
    {
      dbAdapter.Valid()
    }

    /** `new Logger(options = {})`, which opens a new adapter. */
    constructor (options: Options)
      ensures Valid() && fresh(dbAdapter)
      ensures level == Threshold(options.level) && hasSink == options.hasSink
      ensures printed == []
      ensures dbAdapter.State() == Store([], FirstKey)
    {
      level := Threshold(options.level);
      hasSink := options.hasSink;
      printed := [];
      dbAdapter := new IDBAdapter();
    }

    /** `log`: below the threshold return; otherwise print the formatted line when a sink
        is set, then save the entry stamped with the call time `now`. */
    method Log(rt: Runtime, level: int, message: string, c: JsValue, now: int)
      requires Valid()
      modifies this, dbAdapter
      ensures Valid()
      ensures printed == old(printed) + Printed(rt, hasSink, this.level, level, message, now)
      ensures dbAdapter.State() == LogStep(rt, old(dbAdapter.State()), this.level, level, message, c, now)
    {
      if level < this.level {
        return;
      }
      if hasSink {
        printed := printed + [DefaultFormat(rt, level, now, message)];
      }
      var _ := dbAdapter.SaveLog(rt, SaveEntry(rt, level, message, c, now), now);
    }

    method Debug(rt: Runtime, message: string, c: JsValue, now: int)
      requires Valid()
      modifies this, dbAdapter
      ensures Valid()
      ensures printed == old(printed) + Printed(rt, hasSink, level, Src.DEBUG, message, now)
      ensures dbAdapter.State() == LogStep(rt, old(dbAdapter.State()), level, Src.DEBUG, message, c, now)
    {
      Log(rt, Src.DEBUG, message, c, now);
    }

    method Info(rt: Runtime, message: string, c: JsValue, now: int)
      requires Valid()
      modifies this, dbAdapter
      ensures Valid()
      ensures printed == old(printed) + Printed(rt, hasSink, level, Src.INFO, message, now)
      ensures dbAdapter.State() == LogStep(rt, old(dbAdapter.State()), level, Src.INFO, message, c, now)
    {
      Log(rt, Src.INFO, message, c, now);
    }

    method Warn(rt: Runtime, message: string, c: JsValue, now: int)
      requires Valid()
      modifies this, dbAdapter
      ensures Valid()
      ensures printed == old(printed) + Printed(rt, hasSink, level, Src.WARN, message, now)
      ensures dbAdapter.State() == LogStep(rt, old(dbAdapter.State()), level, Src.WARN, message, c, now)
    {
      Log(rt, Src.WARN, message, c, now);
    }

    method Error(rt: Runtime, message: string, c: JsValue, now: int)
      requires Valid()
      modifies this, dbAdapter
      ensures Valid()
      ensures printed == old(printed) + Printed(rt, hasSink, level, Src.ERROR, message, now)
      ensures dbAdapter.State() == LogStep(rt, old(dbAdapter.State()), level, Src.ERROR, message, c, now)
    {
      Log(rt, Src.ERROR, message, c, now);
    }

    /** `clearLogs(start, end)`: forwards both bounds to deleteLogs. */
    method ClearLogs(start: Option<int>, end: Option<int>) returns (r: Result<(), StoreError>)
      requires Valid()
      modifies dbAdapter
      ensures Valid()
      ensures (r, dbAdapter.State()) == AfterDelete(old(dbAdapter.State()), start, end)
    {
      r := dbAdapter.DeleteLogs(start, end);
    }

    /** `getLogs(start, end, minLevel)`: forwards all three to the adapter's getLogs. */
    method GetLogs(rt: Runtime, start: Option<int>, end: Option<int>, minLevel: Option<int>)
      returns (r: Result<seq<LogView>, StoreError>)
      requires Valid()
      ensures r == Query(rt, dbAdapter.State(), start, end, minLevel)
    {
      r := dbAdapter.GetLogs(rt, start, end, minLevel);
    }

    /** `export(format = 'json', start, end, minLevel)`: query through getLogs, then render
        with the same format selection as src/logger.ts. */
    method Export(rt: Runtime, format: Option<string>, start: Option<int>, end: Option<int>, minLevel: Option<int>)
      returns (r: Result<Src.Download, StoreError>)
      requires Valid()
      ensures r.Failure? <==> Query(rt, dbAdapter.State(), start, end, minLevel).Failure?
      ensures r.Failure? ==> r.error == Query(rt, dbAdapter.State(), start, end, minLevel).error
      ensures r.Success? ==> r.value == Src.Render(rt, format.GetOr("json"), Query(rt, dbAdapter.State(), start, end, minLevel).value)
    {
      var logs := GetLogs(rt, start, end, minLevel);
      if logs.Failure? {
        return Failure(logs.error);
      }
      r := Success(Src.Render(rt, format.GetOr("json"), logs.value));
    }
  }
}
