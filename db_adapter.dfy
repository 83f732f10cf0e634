/**
 * The IndexedDB log store behind the logger (`IDBAdapter`): one object store `logEntries`
 * keyed by an auto-incremented `id`, with the non-unique secondary index `timestamp_idx`.
 *
 * The store is kept as its records in `timestamp_idx` cursor order (ascending timestamp,
 * ties by ascending primary key) together with the key generator's next key. The first half
 * of the module states each operation as a function on that state; the class at the end
 * performs the operations step by step, the way the cursor callbacks do, and is proved
 * against those functions.
 */
module DbAdapter {
  import opened Wrappers
  import opened JsValues

  /** The `timestamp` property of an entry handed to `saveLog`. */
  datatype Stamp =
    | NoStamp                  // undefined
    | DateStamp(epoch: int)    // a Date; `epoch` is its getTime()
    | StringStamp(s: string)   // a string, which has no getTime()

  /** `LogEntryDB`: what callers hand to `saveLog`. */
  datatype LogEntryDB = LogEntryDB(level: int, message: string, timestamp: Stamp, context: JsValue)

  /** A record as the object store holds it: epoch-millisecond timestamp, flattened context. */
  datatype StoredRecord = StoredRecord(id: int, level: int, message: string, ts: int, context: JsValue)

  /** A record as `getLogs` hands it back: context parsed again. The timestamp is the epoch
      value that the source renders with `toLocaleString`. */
  datatype LogView = LogView(id: int, level: int, message: string, ts: int, context: JsValue)

  /** `IDBKeyRange.bound(lower, upper, true, false)`: lower bound open, upper bound closed. */
  datatype KeyRange = KeyRange(lower: int, upper: int)

  /** DataError: the key range is invalid. TypeError: a timestamp without getTime().
      ParseFailure: JSON.parse threw inside the cursor callback, so the call never settles. */
  datatype StoreError = DataError | TypeError | ParseFailure

  /** The object store: records in index order, and the key generator's next key. */
  datatype Store = Store(records: seq<StoredRecord>, nextId: int)

  /** The key generator of a new object store hands out 1 first. */
  const FirstKey := 1

  // ----- Encoding on the way in and out -----

  /** `(entry.timestamp || new Date()).getTime()`, with `now` the current time. */
  function StoredTimestamp(stamp: Stamp, now: int): (r: Result<int, StoreError>)
    ensures r.Failure? <==> stamp.StringStamp? && stamp.s != ""
    ensures r.Failure? ==> r.error == TypeError
    ensures r.Success? && stamp.DateStamp? ==> r.value == stamp.epoch
    ensures r.Success? && !stamp.DateStamp? ==> r.value == now
  {
    match stamp
    case NoStamp => Success(now)
    case DateStamp(t) => Success(t)
    case StringStamp(s) => if s == "" then Success(now) else Failure(TypeError)
  }

  /** `typeof c === 'object' ? JSON.stringify(c) : c`. */
  function EncodeContext(rt: Runtime, c: JsValue): (r: JsValue)
    ensures !IsObject(r)
    ensures !IsObject(c) ==> r == c
    ensures IsObject(c) ==> r.Str?
  {
    if IsObject(c) then Str(rt.stringify(c)) else c
  }

  /** `c ? JSON.parse(c) : undefined`; None when JSON.parse throws. */
  function DecodeContext(rt: Runtime, c: JsValue): (r: Option<JsValue>)
    ensures !Truthy(c) ==> r == Some(Undefined)
  {
    if Truthy(c) then rt.parse(ToJsString(c)) else Some(Undefined)
  }

  /** Encoding twice is encoding once: a context the logger already stringified passes
      through the store's own encoding unchanged. */
  lemma EncodeIdempotent(rt: Runtime, c: JsValue)
    ensures EncodeContext(rt, EncodeContext(rt, c)) == EncodeContext(rt, c)
  {
  }

  /** A JSON-safe object-typed context reads back structurally equal. */
  lemma ContextRoundTrip(rt: Runtime, c: JsValue)
    requires JsonLaws(rt)
    requires IsObject(c) && JsonSafe(c)
    ensures DecodeContext(rt, EncodeContext(rt, c)) == Some(c)
  {
    assert rt.stringify(c) != "" && rt.parse(rt.stringify(c)) == Some(c);
  }

  // ----- Key ranges and the level filter -----

  /** `IDBKeyRange.bound(start?.getTime(), end?.getTime(), true, false)`: a missing bound is
      not a valid key, and with the lower bound open equal bounds are rejected too. */
  function Bound(start: Option<int>, end: Option<int>): (r: Result<KeyRange, StoreError>)
    ensures r.Success? <==> start.Some? && end.Some? && start.value < end.value
    ensures r.Success? ==> r.value == KeyRange(start.value, end.value)
    ensures r.Failure? ==> r.error == DataError
  {
    if start.None? || end.None? then Failure(DataError)
    else if start.value < end.value then Success(KeyRange(start.value, end.value))
    else Failure(DataError)
  }

  predicate InRange(kr: KeyRange, ts: int) {
    kr.lower < ts <= kr.upper
  }

  /** `!minLevel || record.level >= minLevel`. */
  predicate LevelPasses(minLevel: Option<int>, level: int) {
    minLevel.None? || minLevel.value == 0 || level >= minLevel.value
  }

  predicate Selected(kr: KeyRange, minLevel: Option<int>, r: StoredRecord) {
    InRange(kr, r.ts) && LevelPasses(minLevel, r.level)
  }

  // ----- The state invariant -----

  /** `a` comes before `b` in `timestamp_idx`. */
  predicate IndexBefore(a: StoredRecord, b: StoredRecord) {
    a.ts < b.ts || (a.ts == b.ts && a.id < b.id)
  }

  /** `a` precedes `b` in the index and holds a different key. */
  predicate Precedes(a: StoredRecord, b: StoredRecord) {
    IndexBefore(a, b) && a.id != b.id
  }

  /** Records in strict index order, with pairwise distinct keys. */
  predicate IndexOrdered(rs: seq<StoredRecord>) {
    forall i, j | 0 <= i < j < |rs| :: Precedes(rs[i], rs[j])
  }

  /** Every stored context has been flattened (none is object-typed). */
  predicate ContextsFlat(rs: seq<StoredRecord>) {
    forall r | r in rs :: !IsObject(r.context)
  }

  predicate WellFormed(st: Store) {
    && st.nextId >= FirstKey
    && IndexOrdered(st.records)
    && ContextsFlat(st.records)
    && (forall r | r in st.records :: FirstKey <= r.id < st.nextId)
  }

  lemma SliceOrdered(rs: seq<StoredRecord>, a: nat, b: nat)
    requires IndexOrdered(rs) && a <= b <= |rs|
    ensures IndexOrdered(rs[a..b])
  {
    forall i, j | 0 <= i < j < b - a ensures Precedes(rs[a..b][i], rs[a..b][j]) {
      assert rs[a..b][i] == rs[a + i] && rs[a..b][j] == rs[a + j];
    }
  }

  /** In an ordered sequence, everything before position k precedes everything from k on. */
  lemma SplitPrecedes(rs: seq<StoredRecord>, k: nat)
    requires IndexOrdered(rs) && k <= |rs|
    ensures forall x, y | x in rs[..k] && y in rs[k..] :: Precedes(x, y)
  {
    forall x, y | x in rs[..k] && y in rs[k..] ensures Precedes(x, y) {
      var p :| 0 <= p < k && rs[..k][p] == x;
      var q :| 0 <= q < |rs| - k && rs[k..][q] == y;
      assert rs[p] == x && rs[k + q] == y;
    }
  }

  lemma ConcatOrdered(x: seq<StoredRecord>, y: seq<StoredRecord>)
    requires IndexOrdered(x) && IndexOrdered(y)
    requires forall a, b | a in x && b in y :: Precedes(a, b)
    ensures IndexOrdered(x + y)
  {
    var xy := x + y;
    forall i, j | 0 <= i < j < |xy| ensures Precedes(xy[i], xy[j]) {
      if i < |x| && j >= |x| {
        assert xy[i] == x[i] && xy[j] == y[j - |x|];
        assert xy[i] in x && xy[j] in y;
      } else if i >= |x| {
        assert xy[i] == y[i - |x|] && xy[j] == y[j - |x|];
      } else {
        assert xy[i] == x[i] && xy[j] == x[j];
      }
    }
  }

  lemma SameIdSameRecord(st: Store, a: StoredRecord, b: StoredRecord)
    requires WellFormed(st)
    requires a in st.records && b in st.records && a.id == b.id
    ensures a == b
  {
    var p :| 0 <= p < |st.records| && st.records[p] == a;
    var q :| 0 <= q < |st.records| && st.records[q] == b;
    assert !(p < q) && !(q < p);
  }

  /** Cutting out the slice [a, b) of a well-formed store leaves a well-formed store. */
  lemma SpliceWellFormed(st: Store, a: nat, b: nat)
    requires WellFormed(st)
    requires a <= b <= |st.records|
    ensures WellFormed(Store(st.records[..a] + st.records[b..], st.nextId))
  {
    var rs := st.records;
    var out := rs[..a] + rs[b..];
    forall i | 0 <= i < |out|
      ensures out[i] == rs[if i < a then i else i - a + b]
    {
    }
    forall i, j | 0 <= i < j < |out|
      ensures Precedes(out[i], out[j])
    {
      var p, q := (if i < a then i else i - a + b), (if j < a then j else j - a + b);
      assert out[i] == rs[p] && out[j] == rs[q] && p < q;
    }
    forall r | r in out ensures r in rs {
      var i :| 0 <= i < |out| && out[i] == r;
    }
  }

  // ----- Insertion -----

  /** The number of leading records whose timestamp is at most `t`: where the cursor lands
      after seeking past `t`. */
  function SeekAfter(rs: seq<StoredRecord>, t: int): (k: nat)
    ensures k <= |rs|
    ensures forall i | 0 <= i < k :: rs[i].ts <= t
    ensures k < |rs| ==> rs[k].ts > t
  {
    if rs == [] || rs[0].ts > t then 0 else 1 + SeekAfter(rs[1..], t)
  }

  /** In an ordered store, every record from the seek position on is later than `t`. */
  lemma SeekAfterOrdered(rs: seq<StoredRecord>, t: int)
    requires IndexOrdered(rs)
    ensures forall i | SeekAfter(rs, t) <= i < |rs| :: rs[i].ts > t
  {
    var k := SeekAfter(rs, t);
    forall i | k <= i < |rs| ensures rs[i].ts > t {
      if i > k { assert IndexBefore(rs[k], rs[i]); }
    }
  }

  /** The index entry of a new record goes after every entry with the same or an earlier
      timestamp (its key is the largest so far) and before every later one. */
  function Insert(rs: seq<StoredRecord>, rec: StoredRecord): (r: seq<StoredRecord>)
    ensures |r| == |rs| + 1
    ensures multiset(r) == multiset(rs) + multiset{rec}
  {
    var k := SeekAfter(rs, rec.ts);
    assert rs[..k] + rs[k..] == rs;
    rs[..k] + [rec] + rs[k..]
  }

  /** A record whose key is larger than every stored key lands in index order. */
  lemma InsertOrdered(rs: seq<StoredRecord>, rec: StoredRecord)
    requires IndexOrdered(rs)
    requires forall r | r in rs :: r.id < rec.id
    ensures IndexOrdered(Insert(rs, rec))
  {
    var k := SeekAfter(rs, rec.ts);
    var front, back := rs[..k], rs[k..];
    SeekAfterOrdered(rs, rec.ts);
    FrontThenNew(rs, rec, k);
    NewThenBack(rs, rec, k);
    SplitPrecedes(rs, k);
    ConcatOrdered(front + [rec], back);
  }

  /** The records up to the seek position, then the new record, are in index order. */
  lemma FrontThenNew(rs: seq<StoredRecord>, rec: StoredRecord, k: nat)
    requires IndexOrdered(rs) && k <= |rs|
    requires forall r | r in rs :: r.id < rec.id
    requires forall i | 0 <= i < k :: rs[i].ts <= rec.ts
    ensures IndexOrdered(rs[..k] + [rec])
  {
    var front := rs[..k];
    SliceOrdered(rs, 0, k);
    assert rs[0..k] == front;
    forall a | a in front ensures Precedes(a, rec) {
      var p :| 0 <= p < k && front[p] == a;
      assert rs[p] == a;
    }
    ConcatOrdered(front, [rec]);
  }

  /** The new record precedes every record from the seek position on, and those stay in
      index order. */
  lemma NewThenBack(rs: seq<StoredRecord>, rec: StoredRecord, k: nat)
    requires IndexOrdered(rs) && k <= |rs|
    requires forall r | r in rs :: r.id < rec.id
    requires forall i | k <= i < |rs| :: rs[i].ts > rec.ts
    ensures IndexOrdered(rs[k..])
    ensures forall b | b in rs[k..] :: Precedes(rec, b)
  {
    var back := rs[k..];
    SliceOrdered(rs, k, |rs|);
    assert rs[k..|rs|] == back;
    forall b | b in back ensures Precedes(rec, b) {
      var q :| 0 <= q < |back| && back[q] == b;
      assert rs[k + q] == b;
    }
  }

  /** A record with a fresh, largest key and a flat context keeps the store well-formed. */
  lemma InsertWellFormed(st: Store, rec: StoredRecord)
    requires WellFormed(st)
    requires rec.id == st.nextId && !IsObject(rec.context)
    ensures WellFormed(Store(Insert(st.records, rec), st.nextId + 1))
  {
    InsertOrdered(st.records, rec);
    var out := Insert(st.records, rec);
    forall r | r in out ensures FirstKey <= r.id < st.nextId + 1 && !IsObject(r.context) {
      assert r in multiset(out);
    }
  }

  /** The record `saveLog` stores for `entry` under key `id` and timestamp `ts`. */
  function SavedRecord(rt: Runtime, id: int, entry: LogEntryDB, ts: int): StoredRecord {
    StoredRecord(id, entry.level, entry.message, ts, EncodeContext(rt, entry.context))
  }

  /** `saveLog(entry)` at time `now`: the promise's outcome and the store afterwards. */
  function AfterSave(rt: Runtime, st: Store, entry: LogEntryDB, now: int): (out: (Result<int, StoreError>, Store))
    ensures out.0.Success? <==> StoredTimestamp(entry.timestamp, now).Success?
    ensures out.0.Failure? ==> out.0.error == TypeError && out.1 == st
    ensures out.0.Success? ==> out.0.value == st.nextId && out.1.nextId == st.nextId + 1
    ensures out.0.Success? ==>
      multiset(out.1.records) == multiset(st.records) + multiset{SavedRecord(rt, st.nextId, entry, StoredTimestamp(entry.timestamp, now).value)}
  {
    match StoredTimestamp(entry.timestamp, now)
    case Failure(e) => (Failure(e), st)
    case Success(ts) =>
      (Success(st.nextId), Store(Insert(st.records, SavedRecord(rt, st.nextId, entry, ts)), st.nextId + 1))
  }

  /** saveLog adds exactly one record, under a key no record held before, and keeps every
      other record; the store stays well-formed. */
  lemma SaveFresh(rt: Runtime, st: Store, entry: LogEntryDB, now: int)
    requires WellFormed(st)
    requires AfterSave(rt, st, entry, now).0.Success?
    ensures WellFormed(AfterSave(rt, st, entry, now).1)
    ensures forall r | r in st.records :: r.id != AfterSave(rt, st, entry, now).0.value
    ensures forall r | r in st.records :: r in AfterSave(rt, st, entry, now).1.records
    ensures forall r | r in AfterSave(rt, st, entry, now).1.records ::
      r in st.records || r.id == AfterSave(rt, st, entry, now).0.value
  {
    var ts := StoredTimestamp(entry.timestamp, now).value;
    var rec := SavedRecord(rt, st.nextId, entry, ts);
    InsertWellFormed(st, rec);
    var out := AfterSave(rt, st, entry, now).1;
    forall r | r in out.records ensures r in st.records || r.id == st.nextId {
      assert r in multiset(out.records);
    }
    forall r | r in st.records ensures r in out.records {
      assert r in multiset(st.records);
    }
  }

  /** The stored timestamp is the entry's own Date, or the call time when it has none. */
  lemma SaveStampsTime(rt: Runtime, st: Store, entry: LogEntryDB, now: int)
    requires !entry.timestamp.StringStamp?
    ensures AfterSave(rt, st, entry, now).0.Success?
    ensures SavedRecord(rt, st.nextId, entry, if entry.timestamp.DateStamp? then entry.timestamp.epoch else now)
            in AfterSave(rt, st, entry, now).1.records
  {
    var rec := SavedRecord(rt, st.nextId, entry, if entry.timestamp.DateStamp? then entry.timestamp.epoch else now);
    assert rec in multiset(AfterSave(rt, st, entry, now).1.records);
  }

  /** A save stamped no earlier than every stored record lands at the end of the index. */
  lemma SaveLatest(rt: Runtime, st: Store, entry: LogEntryDB, t: int)
    requires entry.timestamp == DateStamp(t)
    requires forall r | r in st.records :: r.ts <= t
    ensures AfterSave(rt, st, entry, t).1 == Store(st.records + [SavedRecord(rt, st.nextId, entry, t)], st.nextId + 1)
  {
    var k := SeekAfter(st.records, t);
    assert forall i | 0 <= i < |st.records| :: st.records[i] in st.records;
    assert st.records[..k] == st.records;
  }

  // ----- Range query -----

  /** The records a cursor walk over `kr` pushes, in index order: those in the range that
      pass the level filter. */
  function Select(rs: seq<StoredRecord>, kr: KeyRange, minLevel: Option<int>): (r: seq<StoredRecord>)
    ensures |r| <= |rs|
  {
    if rs == [] then []
    else
      var last := rs[|rs| - 1];
      Select(rs[..|rs| - 1], kr, minLevel) + (if Selected(kr, minLevel, last) then [last] else [])
  }

  /** The walk keeps exactly the records in the range that pass the level filter. */
  lemma {:induction false} SelectMembers(rs: seq<StoredRecord>, kr: KeyRange, minLevel: Option<int>)
    ensures forall x :: x in Select(rs, kr, minLevel) <==> x in rs && Selected(kr, minLevel, x)
  {
    if rs != [] {
      var init := rs[..|rs| - 1];
      SelectMembers(init, kr, minLevel);
      assert rs == init + [rs[|rs| - 1]];
    }
  }

  lemma {:induction false} SelectAppend(a: seq<StoredRecord>, b: seq<StoredRecord>, kr: KeyRange, minLevel: Option<int>)
    ensures Select(a + b, kr, minLevel) == Select(a, kr, minLevel) + Select(b, kr, minLevel)
  {
    if b != [] {
      var ab := a + b;
      assert ab[..|ab| - 1] == a + b[..|b| - 1];
      assert ab[|ab| - 1] == b[|b| - 1];
      SelectAppend(a, b[..|b| - 1], kr, minLevel);
    } else {
      assert a + b == a;
    }
  }

  lemma {:induction false} SelectNone(rs: seq<StoredRecord>, kr: KeyRange, minLevel: Option<int>)
    requires forall i | 0 <= i < |rs| :: !InRange(kr, rs[i].ts)
    ensures Select(rs, kr, minLevel) == []
  {
    if rs != [] {
      SelectNone(rs[..|rs| - 1], kr, minLevel);
    }
  }

  /** The walk only appends, so its result keeps the index order. */
  lemma {:induction false} SelectOrdered(rs: seq<StoredRecord>, kr: KeyRange, minLevel: Option<int>)
    requires IndexOrdered(rs)
    ensures IndexOrdered(Select(rs, kr, minLevel))
  {
    if rs != [] {
      var init, last := rs[..|rs| - 1], rs[|rs| - 1];
      SelectOrdered(init, kr, minLevel);
      SelectMembers(init, kr, minLevel);
      var s := Select(init, kr, minLevel);
      SliceOrdered(rs, 0, |rs| - 1);
      assert rs[0..|rs| - 1] == init;
      forall x | x in s ensures Precedes(x, last) {
        var p :| 0 <= p < |init| && init[p] == x;
        assert rs[p] == x;
      }
      ConcatOrdered(s, if Selected(kr, minLevel, last) then [last] else []);
    }
  }

  /** The view of a record whose stored context parsed to `ctx`. */
  function View(r: StoredRecord, ctx: JsValue): LogView {
    LogView(r.id, r.level, r.message, r.ts, ctx)
  }

  /** Parse the context of each record in turn; the first failing parse ends the walk. */
  function DecodeAll(rt: Runtime, rs: seq<StoredRecord>): (r: Result<seq<LogView>, StoreError>)
    ensures r.Success? <==> forall i | 0 <= i < |rs| :: DecodeContext(rt, rs[i].context).Some?
    ensures r.Failure? ==> r.error == ParseFailure
    ensures r.Success? ==> |r.value| == |rs|
    ensures r.Success? ==>
      forall i | 0 <= i < |rs| :: r.value[i] == View(rs[i], DecodeContext(rt, rs[i].context).value)
  {
    if rs == [] then Success([])
    else
      var last := rs[|rs| - 1];
      match DecodeAll(rt, rs[..|rs| - 1])
      case Failure(e) => Failure(e)
      case Success(vs) =>
        match DecodeContext(rt, last.context)
        case None => Failure(ParseFailure)
        case Some(c) => Success(vs + [View(last, c)])
  }

  /** The object `getLogs` pushes for a view: `{...record, timestamp, context}`. Its keys
      keep the order the record was written in (level, message, timestamp, context), with
      the generated `id` last; the timestamp is rendered with `toLocaleString`. */
  function ViewObject(rt: Runtime, v: LogView): (o: seq<(string, JsValue)>)
    ensures |o| == 5
  {
    [("level", Num(v.level)), ("message", Str(v.message)), ("timestamp", Str(rt.localeTime(v.ts))),
     ("context", v.context), ("id", Num(v.id))]
  }

  /** `getLogs(start, end, minLevel)`: what the returned promise settles to. */
  function Query(rt: Runtime, st: Store, start: Option<int>, end: Option<int>, minLevel: Option<int>): (r: Result<seq<LogView>, StoreError>)
    ensures r == Failure(DataError) <==> Bound(start, end).Failure?
    ensures r.Failure? ==> r.error == DataError || r.error == ParseFailure
  {
    match Bound(start, end)
    case Failure(e) => Failure(e)
    case Success(kr) => DecodeAll(rt, Select(st.records, kr, minLevel))
  }

  /** Every view getLogs returns is a stored record with `start < ts <= end` that passes
      the level filter. */
  lemma QuerySound(rt: Runtime, st: Store, s: int, e: int, minLevel: Option<int>, vs: seq<LogView>)
    requires Query(rt, st, Some(s), Some(e), minLevel) == Success(vs)
    ensures s < e
    ensures forall i | 0 <= i < |vs| :: exists r | r in st.records ::
      && s < r.ts <= e && LevelPasses(minLevel, r.level)
      && vs[i] == View(r, vs[i].context)
  {
    var sel := Select(st.records, KeyRange(s, e), minLevel);
    SelectMembers(st.records, KeyRange(s, e), minLevel);
    forall i | 0 <= i < |vs|
      ensures exists r | r in st.records :: s < r.ts <= e && LevelPasses(minLevel, r.level) && vs[i] == View(r, vs[i].context)
    {
      assert sel[i] in sel;
    }
  }

  /** A stored record has a view in getLogs' result exactly when `start < ts <= end` and it
      passes the level filter. */
  lemma QueryComplete(rt: Runtime, st: Store, s: int, e: int, minLevel: Option<int>, vs: seq<LogView>)
    requires WellFormed(st)
    requires Query(rt, st, Some(s), Some(e), minLevel) == Success(vs)
    ensures forall r | r in st.records ::
      (s < r.ts <= e && LevelPasses(minLevel, r.level)) <==> exists i | 0 <= i < |vs| :: vs[i].id == r.id
  {
    var sel := Select(st.records, KeyRange(s, e), minLevel);
    SelectMembers(st.records, KeyRange(s, e), minLevel);
    forall r | r in st.records
      ensures (s < r.ts <= e && LevelPasses(minLevel, r.level)) <==> exists i | 0 <= i < |vs| :: vs[i].id == r.id
    {
      if s < r.ts <= e && LevelPasses(minLevel, r.level) {
        var k :| 0 <= k < |sel| && sel[k] == r;
        assert vs[k].id == r.id;
      }
      if i :| 0 <= i < |vs| && vs[i].id == r.id {
        assert sel[i] in sel;
        SameIdSameRecord(st, sel[i], r);
      }
    }
  }

  /** getLogs returns its views in ascending timestamp order, ties by ascending id. */
  lemma QueryOrdered(rt: Runtime, st: Store, start: Option<int>, end: Option<int>, minLevel: Option<int>, vs: seq<LogView>)
    requires WellFormed(st)
    requires Query(rt, st, start, end, minLevel) == Success(vs)
    ensures forall i, j | 0 <= i < j < |vs| :: vs[i].ts < vs[j].ts || (vs[i].ts == vs[j].ts && vs[i].id < vs[j].id)
  {
    var kr := Bound(start, end).value;
    var sel := Select(st.records, kr, minLevel);
    SelectOrdered(st.records, kr, minLevel);
    forall i, j | 0 <= i < j < |vs| ensures vs[i].ts < vs[j].ts || (vs[i].ts == vs[j].ts && vs[i].id < vs[j].id) {
      assert Precedes(sel[i], sel[j]);
    }
  }

  /** A query whose range and level filter take a just-saved record in: it fails with
      ParseFailure when the stored context does not parse back, and whenever it succeeds it
      returns the record under the new key with its context as parsed. For a host whose JSON round-trips,
      an object context comes back structurally equal. */
  lemma SaveThenQuery(rt: Runtime, st: Store, entry: LogEntryDB, now: int,
                      s: int, e: int, minLevel: Option<int>)
    requires StoredTimestamp(entry.timestamp, now).Success?
    requires s < StoredTimestamp(entry.timestamp, now).value <= e && LevelPasses(minLevel, entry.level)
    ensures DecodeContext(rt, EncodeContext(rt, entry.context)).None? ==>
      Query(rt, AfterSave(rt, st, entry, now).1, Some(s), Some(e), minLevel) == Failure(ParseFailure)
    ensures var r := Query(rt, AfterSave(rt, st, entry, now).1, Some(s), Some(e), minLevel);
      r.Success? ==> exists i | 0 <= i < |r.value| ::
        r.value[i].id == st.nextId && r.value[i].level == entry.level &&
        r.value[i].message == entry.message && r.value[i].ts == StoredTimestamp(entry.timestamp, now).value &&
        DecodeContext(rt, EncodeContext(rt, entry.context)) == Some(r.value[i].context)
    ensures JsonLaws(rt) && IsObject(entry.context) && JsonSafe(entry.context) ==>
      var r := Query(rt, AfterSave(rt, st, entry, now).1, Some(s), Some(e), minLevel);
      r.Success? ==> exists i | 0 <= i < |r.value| ::
        r.value[i] == LogView(st.nextId, entry.level, entry.message,
                              StoredTimestamp(entry.timestamp, now).value, entry.context)
  {
    var ts := StoredTimestamp(entry.timestamp, now).value;
    var rec := SavedRecord(rt, st.nextId, entry, ts);
    var after := AfterSave(rt, st, entry, now).1;
    assert rec in multiset(after.records);
    var kr := KeyRange(s, e);
    var sel := Select(after.records, kr, minLevel);
    SelectMembers(after.records, kr, minLevel);
    assert rec in sel;
    var k :| 0 <= k < |sel| && sel[k] == rec;
    var r := Query(rt, after, Some(s), Some(e), minLevel);
    assert r == DecodeAll(rt, sel);
    if DecodeContext(rt, rec.context).None? {
      UnparsableFails(rt, after, Some(s), Some(e), minLevel, rec);
    } else if r.Success? {
      assert r.value[k] == View(rec, DecodeContext(rt, rec.context).value);
      if JsonLaws(rt) && IsObject(entry.context) && JsonSafe(entry.context) {
        ContextRoundTrip(rt, entry.context);
      }
    }
  }

  /** A string context that is not JSON (a plain message, say) makes every query whose range
      takes its record in and whose level filter keeps it fail: JSON.parse throws inside the
      cursor callback. */
  lemma StringContextBreaksQuery(rt: Runtime, st: Store, s: int, e: int, minLevel: Option<int>, r: StoredRecord)
    requires r in st.records && r.context.Str? && r.context.s != "" && rt.parse(r.context.s).None?
    requires s < r.ts <= e && LevelPasses(minLevel, r.level)
    ensures Query(rt, st, Some(s), Some(e), minLevel) == Failure(ParseFailure)
  {
    UnparsableFails(rt, st, Some(s), Some(e), minLevel, r);
  }

  /** The level filter runs before JSON.parse: a query whose minimum level drops a record
      never parses its context, so a DEBUG record with a non-JSON context does not break an
      in-range query at WARN. */
  lemma FilteredNotParsed(rt: Runtime)
    requires rt.parse("plain").None?
    ensures Query(rt, Store([StoredRecord(1, 0, "m", 5, Str("plain"))], 2), Some(0), Some(10), Some(2)) == Success([])
  {
    var rs := [StoredRecord(1, 0, "m", 5, Str("plain"))];
    assert rs[..0] == [];
    assert Select(rs, KeyRange(0, 10), Some(2)) == [];
  }

  /** A selected record whose context does not parse makes the whole query fail. */
  lemma UnparsableFails(rt: Runtime, st: Store, start: Option<int>, end: Option<int>, minLevel: Option<int>, r: StoredRecord)
    requires Bound(start, end).Success? && r in st.records
    requires Selected(Bound(start, end).value, minLevel, r) && DecodeContext(rt, r.context).None?
    ensures Query(rt, st, start, end, minLevel) == Failure(ParseFailure)
  {
    WalkFailure(rt, st.records, Bound(start, end).value, minLevel, r);
  }

  /** Four context-free records, one per level from DEBUG to ERROR, saved at increasing
      times `t0 < t1 < t2 < t3` under keys 1 to 4. */
  function FourRecords(t0: int, t1: int, t2: int, t3: int): seq<StoredRecord> {
    [StoredRecord(1, 0, "d", t0, Undefined), StoredRecord(2, 1, "i", t1, Undefined),
     StoredRecord(3, 2, "w", t2, Undefined), StoredRecord(4, 3, "e", t3, Undefined)]
  }

  /** Over (t0, t3] with minimum level INFO the walk keeps the last three records: the open
      lower bound drops the first, the closed upper bound keeps the last. */
  lemma FourSelected(t0: int, t1: int, t2: int, t3: int)
    requires t0 < t1 < t2 < t3
    ensures Select(FourRecords(t0, t1, t2, t3), KeyRange(t0, t3), Some(1)) == FourRecords(t0, t1, t2, t3)[1..]
  {
    var rs := FourRecords(t0, t1, t2, t3);
    var kr := KeyRange(t0, t3);
    assert rs[..1] == [rs[0]] && rs[..2] == [rs[0], rs[1]] && rs[..3] == [rs[0], rs[1], rs[2]];
    assert rs[..2][..1] == [rs[0]] && rs[..3][..2] == rs[..2] && rs[..3] == rs[..|rs| - 1];
    assert [rs[0]][..0] == [];
    assert Select([rs[0]], kr, Some(1)) == [];
    assert Select(rs[..2], kr, Some(1)) == [rs[1]];
    assert Select(rs[..3], kr, Some(1)) == [rs[1], rs[2]];
    assert rs[1..] == [rs[1], rs[2], rs[3]];
  }

  /** A query over the four records from the first time to the last with minimum level INFO
      returns the INFO, WARN and ERROR records, in that order. */
  lemma FourLevels(rt: Runtime, t0: int, t1: int, t2: int, t3: int)
    requires t0 < t1 < t2 < t3
    ensures Query(rt, Store(FourRecords(t0, t1, t2, t3), 5), Some(t0), Some(t3), Some(1))
         == Success([LogView(2, 1, "i", t1, Undefined), LogView(3, 2, "w", t2, Undefined), LogView(4, 3, "e", t3, Undefined)])
  {
    var rs := FourRecords(t0, t1, t2, t3);
    FourSelected(t0, t1, t2, t3);
    assert DecodeContext(rt, Undefined) == Some(Undefined);
    var d := DecodeAll(rt, rs[1..]);
    assert d.Success?;
    assert d.value == [View(rs[1], Undefined), View(rs[2], Undefined), View(rs[3], Undefined)];
  }

  /** The cursor walk as one pass from the start of the index: a record outside the range
      or below the level filter is skipped, any other is pushed with its context parsed,
      and the first context that does not parse ends the walk. */
  function Walked(rt: Runtime, rs: seq<StoredRecord>, kr: KeyRange, minLevel: Option<int>): Result<seq<LogView>, StoreError> {
    if rs == [] then Success([])
    else
      var last := rs[|rs| - 1];
      match Walked(rt, rs[..|rs| - 1], kr, minLevel)
      case Failure(e) => Failure(e)
      case Success(vs) =>
        if !Selected(kr, minLevel, last) then Success(vs)
        else
          match DecodeContext(rt, last.context)
          case None => Failure(ParseFailure)
          case Some(c) => Success(vs + [View(last, c)])
  }

  /** The one-pass walk yields exactly the selected records, decoded in order. */
  lemma {:induction false} WalkedDecodesSelection(rt: Runtime, rs: seq<StoredRecord>, kr: KeyRange, minLevel: Option<int>)
    ensures Walked(rt, rs, kr, minLevel) == DecodeAll(rt, Select(rs, kr, minLevel))
  {
    if rs != [] {
      var init, last := rs[..|rs| - 1], rs[|rs| - 1];
      WalkedDecodesSelection(rt, init, kr, minLevel);
      var s := Select(init, kr, minLevel);
      if Selected(kr, minLevel, last) {
        assert Select(rs, kr, minLevel) == s + [last];
        DecodeAllSnoc(rt, s, last);
      } else {
        assert Select(rs, kr, minLevel) == s + [];
        assert s + [] == s;
      }
    }
  }

  /** Decoding one more record: a failure so far stands; otherwise the record's context is
      parsed and its view appended. */
  lemma DecodeAllSnoc(rt: Runtime, s: seq<StoredRecord>, x: StoredRecord)
    ensures DecodeAll(rt, s).Failure? ==> DecodeAll(rt, s + [x]) == DecodeAll(rt, s)
    ensures DecodeAll(rt, s).Success? && DecodeContext(rt, x.context).None? ==>
      DecodeAll(rt, s + [x]) == Failure(ParseFailure)
    ensures DecodeAll(rt, s).Success? && DecodeContext(rt, x.context).Some? ==>
      DecodeAll(rt, s + [x]) == Success(DecodeAll(rt, s).value + [View(x, DecodeContext(rt, x.context).value)])
  {
    assert (s + [x])[..|s|] == s;
  }


  lemma WalkFailure(rt: Runtime, rs: seq<StoredRecord>, kr: KeyRange, minLevel: Option<int>, r: StoredRecord)
    requires r in rs && Selected(kr, minLevel, r) && DecodeContext(rt, r.context).None?
    ensures DecodeAll(rt, Select(rs, kr, minLevel)) == Failure(ParseFailure)
  {
    var sel := Select(rs, kr, minLevel);
    SelectMembers(rs, kr, minLevel);
    assert r in sel;
    var k :| 0 <= k < |sel| && sel[k] == r;
    assert DecodeContext(rt, sel[k].context).None?;
  }

  // ----- Range delete -----

  /** The records outside the range, in index order. */
  function Keep(rs: seq<StoredRecord>, kr: KeyRange): (r: seq<StoredRecord>)
    ensures |r| <= |rs|
  {
    if rs == [] then []
    else
      var last := rs[|rs| - 1];
      Keep(rs[..|rs| - 1], kr) + (if InRange(kr, last.ts) then [] else [last])
  }

  /** Exactly the records outside the range are kept. */
  lemma {:induction false} KeepMembers(rs: seq<StoredRecord>, kr: KeyRange)
    ensures forall x :: x in Keep(rs, kr) <==> x in rs && !InRange(kr, x.ts)
  {
    if rs != [] {
      var init := rs[..|rs| - 1];
      KeepMembers(init, kr);
      assert rs == init + [rs[|rs| - 1]];
    }
  }

  lemma {:induction false} KeepAppend(a: seq<StoredRecord>, b: seq<StoredRecord>, kr: KeyRange)
    ensures Keep(a + b, kr) == Keep(a, kr) + Keep(b, kr)
  {
    if b != [] {
      var ab := a + b;
      var last := b[|b| - 1];
      assert ab[..|ab| - 1] == a + b[..|b| - 1];
      assert ab[|ab| - 1] == last;
      KeepAppend(a, b[..|b| - 1], kr);
      var tail := if InRange(kr, last.ts) then [] else [last];
      calc {
        Keep(ab, kr);
        Keep(a + b[..|b| - 1], kr) + tail;
        Keep(a, kr) + Keep(b[..|b| - 1], kr) + tail;
        Keep(a, kr) + Keep(b, kr);
      }
    } else {
      assert a + b == a;
    }
  }

  lemma {:induction false} KeepOutside(rs: seq<StoredRecord>, kr: KeyRange)
    requires forall i | 0 <= i < |rs| :: !InRange(kr, rs[i].ts)
    ensures Keep(rs, kr) == rs
  {
    if rs != [] {
      KeepOutside(rs[..|rs| - 1], kr);
      assert rs[..|rs| - 1] + [rs[|rs| - 1]] == rs;
    }
  }

  lemma {:induction false} KeepInside(rs: seq<StoredRecord>, kr: KeyRange)
    requires forall i | 0 <= i < |rs| :: InRange(kr, rs[i].ts)
    ensures Keep(rs, kr) == []
  {
    if rs != [] {
      KeepInside(rs[..|rs| - 1], kr);
    }
  }

  /** `deleteLogs(start, end)`: the promise's outcome and the store afterwards. */
  function AfterDelete(st: Store, start: Option<int>, end: Option<int>): (out: (Result<(), StoreError>, Store))
    ensures out.0.Success? <==> Bound(start, end).Success?
    ensures out.0.Failure? ==> out.0.error == DataError && out.1 == st
    ensures out.1.nextId == st.nextId
  {
    match Bound(start, end)
    case Failure(e) => (Failure(e), st)
    case Success(kr) => (Success(()), Store(Keep(st.records, kr), st.nextId))
  }

  /** deleteLogs removes exactly the records with `start < ts <= end`; every other record
      survives, so the count is conserved, and the store stays well-formed. */
  lemma DeleteExact(st: Store, s: int, e: int)
    requires WellFormed(st)
    requires s < e
    ensures WellFormed(AfterDelete(st, Some(s), Some(e)).1)
    ensures forall r :: r in AfterDelete(st, Some(s), Some(e)).1.records <==> r in st.records && !(s < r.ts <= e)
    ensures |AfterDelete(st, Some(s), Some(e)).1.records| + |Select(st.records, KeyRange(s, e), None)| == |st.records|
  {
    var kr := KeyRange(s, e);
    KeepWellFormed(st, kr);
    KeepMembers(st.records, kr);
    KeepSelectCount(st.records, kr);
  }

  /** Removing records keeps the store well-formed: what survives is a subsequence. */
  lemma {:induction false} KeepWellFormed(st: Store, kr: KeyRange)
    requires WellFormed(st)
    ensures WellFormed(Store(Keep(st.records, kr), st.nextId))
    decreases |st.records|
  {
    var rs := st.records;
    if rs != [] {
      var init := Store(rs[..|rs| - 1], st.nextId);
      SpliceWellFormed(st, |rs| - 1, |rs|);
      assert rs[..|rs| - 1] + rs[|rs|..] == init.records;
      KeepWellFormed(init, kr);
      KeepMembers(init.records, kr);
      var last := rs[|rs| - 1];
      SplitPrecedes(rs, |rs| - 1);
      assert rs[|rs| - 1..] == [last];
      ConcatOrdered(Keep(init.records, kr), if InRange(kr, last.ts) then [] else [last]);
    }
  }

  lemma {:induction false} KeepSelectCount(rs: seq<StoredRecord>, kr: KeyRange)
    ensures |Keep(rs, kr)| + |Select(rs, kr, None)| == |rs|
  {
    if rs != [] {
      KeepSelectCount(rs[..|rs| - 1], kr);
    }
  }

  /** After a successful deleteLogs, a query over the same bounds finds nothing, whatever
      the level filter. */
  lemma DeleteThenQueryEmpty(rt: Runtime, st: Store, start: Option<int>, end: Option<int>, minLevel: Option<int>)
    requires WellFormed(st)
    requires AfterDelete(st, start, end).0.Success?
    ensures Query(rt, AfterDelete(st, start, end).1, start, end, minLevel) == Success([])
  {
    var kr := Bound(start, end).value;
    var kept := Keep(st.records, kr);
    KeepMembers(st.records, kr);
    forall i | 0 <= i < |kept| ensures !InRange(kr, kept[i].ts) {
      assert kept[i] in kept;
    }
    SelectNone(kept, kr, minLevel);
  }

  // ----- The adapter -----

  /** `IDBAdapter`: the opened `logsDB` database with its `logEntries` store. */
  class IDBAdapter {
    /** The store's records in `timestamp_idx` order. */
    var records: seq<StoredRecord>
    /** The key generator's next key. */
    var nextId: int

    ghost function State(): Store
      reads this
    {
      Store(records, nextId)
    }

    ghost predicate Valid()
      reads this
    {
      WellFormed(State())
    }

    /** A newly created database: the upgrade creates the empty store and its index. */
    constructor ()
      ensures Valid()
      ensures State() == Store([], FirstKey)
    {
      records := [];
      nextId := FirstKey;
    }

    /** `store.add({...entry, timestamp, context})` under the next generated key. */
    method SaveLog(rt: Runtime, entry: LogEntryDB, now: int) returns (r: Result<int, StoreError>)
      requires Valid()
      modifies this
      ensures Valid()
      ensures (r, State()) == AfterSave(rt, old(State()), entry, now)
    {
      var ts := StoredTimestamp(entry.timestamp, now);
      if ts.Failure? {
        return Failure(ts.error);
      }
      var rec := SavedRecord(rt, nextId, entry, ts.value);
      InsertWellFormed(State(), rec);
      records := Insert(records, rec);
      r := Success(nextId);
      nextId := nextId + 1;
    }

    /** `index.openCursor(range)`: the position of the first record above the range's
        open lower bound. */
    method OpenCursor(kr: KeyRange) returns (i: nat)
      requires Valid()
      ensures i <= |records|
      ensures forall j | 0 <= j < i :: records[j].ts <= kr.lower
      ensures forall j | i <= j < |records| :: records[j].ts > kr.lower
    {
      i := 0;
      while i < |records| && records[i].ts <= kr.lower
        invariant i <= |records|
        invariant forall j | 0 <= j < i :: records[j].ts <= kr.lower
      {
        i := i + 1;
      }
      SeekAfterOrderedAt(records, i, kr.lower);
    }

    /** Open a cursor on `timestamp_idx` over the key range and push each record that
        passes the level filter, parsing its context, until the cursor runs out. */
    method GetLogs(rt: Runtime, start: Option<int>, end: Option<int>, minLevel: Option<int>)
      returns (r: Result<seq<LogView>, StoreError>)
      requires Valid()
      ensures r == Query(rt, State(), start, end, minLevel)
    {
      var bound := Bound(start, end);
      if bound.Failure? {
        return Failure(bound.error);
      }
      var kr := bound.value;
      var i := OpenCursor(kr);
      SeekPrefixNotSelected(records, i, kr, minLevel);
      WalkedDecodesSelection(rt, records[..i], kr, minLevel);
      var stop;
      r, stop := Walk(rt, kr, minLevel, i);
      if r.Success? {
        WalkedDecodesSelection(rt, records[..stop], kr, minLevel);
        RestNotSelected(records, stop, kr, minLevel);
      } else {
        WalkFailure(rt, records, kr, minLevel, records[stop]);
      }
    }

    /** The cursor's `onsuccess` callbacks from position `start` on, until the cursor leaves
        the range at position `stop` and the pushed records are resolved, or the context of
        the record at `stop` fails to parse. */
    method Walk(rt: Runtime, kr: KeyRange, minLevel: Option<int>, start: nat)
      returns (r: Result<seq<LogView>, StoreError>, stop: nat)
      requires start <= |records|
      requires Walked(rt, records[..start], kr, minLevel) == Success([])
      requires forall j | start <= j < |records| :: records[j].ts > kr.lower
      ensures r.Failure? ==> r == Failure(ParseFailure) && stop < |records|
      ensures r.Failure? ==> Selected(kr, minLevel, records[stop]) && DecodeContext(rt, records[stop].context).None?
      ensures r.Success? ==> stop <= |records| && r == Walked(rt, records[..stop], kr, minLevel)
      ensures r.Success? ==> stop == |records| || records[stop].ts > kr.upper
    {
      var i := start;
      var logs: seq<LogView> := [];
      while i < |records| && records[i].ts <= kr.upper
        invariant start <= i <= |records|
        invariant Walked(rt, records[..i], kr, minLevel) == Success(logs)
      {
        var pushed := Visit(rt, kr, minLevel, i, logs);
        if pushed.Failure? {
          return pushed, i;
        }
        logs := pushed.value;
        i := i + 1;
      }
      r, stop := Success(logs), i;
    }

    /** One `onsuccess` callback on the in-range record at position `i`: push it with its
        context parsed when it passes the level filter. A context that does not parse
        throws, which ends the walk. */
    method Visit(rt: Runtime, kr: KeyRange, minLevel: Option<int>, i: nat, logs: seq<LogView>)
      returns (r: Result<seq<LogView>, StoreError>)
      requires i < |records| && InRange(kr, records[i].ts)
      requires Walked(rt, records[..i], kr, minLevel) == Success(logs)
      ensures r.Success? ==> r == Walked(rt, records[..i + 1], kr, minLevel)
      ensures r.Failure? ==> r.error == ParseFailure && Selected(kr, minLevel, records[i])
                             && DecodeContext(rt, records[i].context).None?
    {
      var record := records[i];
      assert records[..i + 1][..i] == records[..i];
      if !LevelPasses(minLevel, record.level) {
        return Success(logs);
      }
      var context := DecodeContext(rt, record.context);
      if context.None? {
        return Failure(ParseFailure);
      }
      r := Success(logs + [View(record, context.value)]);
    }

    /** Open a cursor over the key range and, at each record, delete it and continue. The
        continued cursor lands on the record after the deleted one, which now sits at the
        same position, so no record in the range is skipped. */
    method DeleteLogs(start: Option<int>, end: Option<int>) returns (r: Result<(), StoreError>)
      requires Valid()
      modifies this
      ensures Valid()
      ensures (r, State()) == AfterDelete(old(State()), start, end)
    {
      var bound := Bound(start, end);
      if bound.Failure? {
        return Failure(bound.error);
      }
      var kr := bound.value;
      var i := OpenCursor(kr);
      ghost var original := records;
      var stop := DeleteFrom(kr, i);
      DeleteDone(Store(original, nextId), i, stop, kr);
      r := Success(());
    }

    /** The delete cursor's `onsuccess` callbacks from position `at`: delete the record under
        the cursor and continue. The continued cursor lands on the record after the deleted
        one, which now sits at the same position, so no record in the range is skipped; the
        walk ends at `stop`, the first original position past the range. */
    method DeleteFrom(kr: KeyRange, at: nat) returns (stop: nat)
      requires at <= |records|
      requires forall j | at <= j < |records| :: records[j].ts > kr.lower
      modifies this
      ensures at <= stop <= |old(records)|
      ensures records == old(records)[..at] + old(records)[stop..]
      ensures forall j | at <= j < stop :: InRange(kr, old(records)[j].ts)
      ensures stop == |old(records)| || old(records)[stop].ts > kr.upper
      ensures nextId == old(nextId)
    {
      ghost var original := records;
      stop := at;  // the cursor's position in the original order
      while at < |records| && records[at].ts <= kr.upper
        invariant at <= stop <= |original|
        invariant records == original[..at] + original[stop..]
        invariant forall j | at <= j < stop :: InRange(kr, original[j].ts)
        invariant forall j | stop <= j < |original| :: original[j].ts > kr.lower
        invariant nextId == old(nextId)
        decreases |records| - at
      {
        SpliceStep(original, at, stop);
        records := records[..at] + records[at + 1..];
        stop := stop + 1;
      }
    }
  }

  // ----- Facts about the cursor walks -----

  lemma SeekPrefixNotSelected(rs: seq<StoredRecord>, i: nat, kr: KeyRange, minLevel: Option<int>)
    requires i <= |rs|
    requires forall j | 0 <= j < i :: rs[j].ts <= kr.lower
    ensures Select(rs[..i], kr, minLevel) == []
  {
    SelectNone(rs[..i], kr, minLevel);
  }

  lemma SeekAfterOrderedAt(rs: seq<StoredRecord>, i: nat, t: int)
    requires IndexOrdered(rs) && i <= |rs|
    requires forall j | 0 <= j < i :: rs[j].ts <= t
    requires i == |rs| || rs[i].ts > t
    ensures forall j | i <= j < |rs| :: rs[j].ts > t
  {
    forall j | i < j < |rs| ensures rs[j].ts > t {
      assert IndexBefore(rs[i], rs[j]);
    }
  }

  /** Once the cursor passes the upper bound, nothing later in the index is selected. */
  lemma RestNotSelected(rs: seq<StoredRecord>, i: nat, kr: KeyRange, minLevel: Option<int>)
    requires IndexOrdered(rs) && i <= |rs|
    requires i == |rs| || rs[i].ts > kr.upper
    ensures Select(rs, kr, minLevel) == Select(rs[..i], kr, minLevel)
  {
    var rest := rs[i..];
    forall j | 0 <= j < |rest| ensures !InRange(kr, rest[j].ts) {
      if j > 0 { assert IndexBefore(rs[i], rs[i + j]); }
    }
    SelectNone(rest, kr, minLevel);
    assert rs[..i] + rest == rs;
    SelectAppend(rs[..i], rest, kr, minLevel);
  }

  /** One delete-and-continue step: the record under the cursor is the next one of the
      original order, and removing it advances the original position by one. */
  lemma SpliceStep(original: seq<StoredRecord>, i: nat, next: nat)
    requires i <= next < |original|
    ensures (original[..i] + original[next..])[i] == original[next]
    ensures var cur := original[..i] + original[next..];
      cur[..i] + cur[i + 1..] == original[..i] + original[next + 1..]
  {
    var cur := original[..i] + original[next..];
    assert cur[..i] == original[..i];
    assert cur[i + 1..] == original[next + 1..];
  }

  /** When the delete walk stops, the records it removed are exactly the in-range ones, and
      cutting them out leaves the store well-formed. */
  lemma DeleteDone(st: Store, i: nat, next: nat, kr: KeyRange)
    requires WellFormed(st) && i <= next <= |st.records|
    requires forall j | 0 <= j < i :: st.records[j].ts <= kr.lower
    requires forall j | i <= j < next :: InRange(kr, st.records[j].ts)
    requires forall j | next <= j < |st.records| :: st.records[j].ts > kr.lower
    requires next == |st.records| || st.records[next].ts > kr.upper
    ensures WellFormed(Store(st.records[..i] + st.records[next..], st.nextId))
    ensures Keep(st.records, kr) == st.records[..i] + st.records[next..]
  {
    var rs := st.records;
    SpliceWellFormed(st, i, next);
    forall j | next <= j < |rs| ensures !InRange(kr, rs[j].ts) {
      if j > next { assert IndexBefore(rs[next], rs[j]); }
    }
    KeepSplice(rs, i, next, kr);
  }

  lemma KeepSplice(rs: seq<StoredRecord>, a: nat, b: nat, kr: KeyRange)
    requires a <= b <= |rs|
    requires forall j | 0 <= j < a :: !InRange(kr, rs[j].ts)
    requires forall j | a <= j < b :: InRange(kr, rs[j].ts)
    requires forall j | b <= j < |rs| :: !InRange(kr, rs[j].ts)
    ensures Keep(rs, kr) == rs[..a] + rs[b..]
  {
    var front, middle, back := rs[..a], rs[a..b], rs[b..];
    assert rs == front + middle + back;
    assert Keep(front, kr) == front by {
      forall j | 0 <= j < |front| ensures !InRange(kr, front[j].ts) {
        assert front[j] == rs[j];
      }
      KeepOutside(front, kr);
    }
    assert Keep(middle, kr) == [] by {
      forall j | 0 <= j < |middle| ensures InRange(kr, middle[j].ts) {
        assert middle[j] == rs[a + j];
      }
      KeepInside(middle, kr);
    }
    assert Keep(back, kr) == back by {
      forall j | 0 <= j < |back| ensures !InRange(kr, back[j].ts) {
        assert back[j] == rs[b + j];
      }
      KeepOutside(back, kr);
    }
    KeepAppend(front + middle, back, kr);
    KeepAppend(front, middle, kr);
    assert front + [] == front;
  }
}
