/** The database-backed collector of vercel-analytics/lib/supabase-analytics.js.
    `addEvent` maps an event to one row of the `analytics_events` table and
    inserts it; when the insert fails because the table is missing, it asks
    for the table to be created and retries exactly once.  `getStats` reads
    counts, distinct users and platforms, and a page of recent events in
    descending creation order, and falls back to a fixed demo result when
    the store is not configured or the read throws.

    The store is abstract: each insert's outcome and each query's success
    are parameters, and the table is a sequence of rows whose creation time
    is a number of milliseconds since the epoch (UTC). */
module SupabaseAnalytics {
  import opened Json
  import opened Seqs
  import opened Text

  /** Milliseconds in a UTC day. */
  const DayMillis: nat := 86400000

  /** The values `addEvent` gives the columns of a row; a column without a
      value is SQL NULL. */
  datatype RowValues = RowValues(
    event: Option<Value>, timestamp: Option<Value>, sessionId: Option<Value>,
    username: Option<Value>, hostname: Option<Value>, userEmail: Option<Value>, domain: Option<Value>,
    version: Option<Value>, platform: Option<Value>, nodeVersion: Option<Value>, arch: Option<Value>,
    installLocation: Option<Value>, eventData: Option<Value>)

  const NoValues := RowValues(None, None, None, None, None, None, None, None, None, None, None, None, None)

  /** A row of `analytics_events` with its creation time. */
  datatype Row = Row(values: RowValues, createdAt: nat)

  /** A column as read back; SQL NULL (and a JSON `null` stored in a text
      column) reads as `null`. */
  function ColValue(v: Option<Value>): Value {
    v.GetOr(Null)
  }

  /** `v?.part?.field`. */
  function Sub(ev: Value, part: string, field: string): Option<Value> {
    Get(Get(Some(ev), part), field)
  }

  /** The row `addEvent` inserts: each column takes the event field it is
      named after.  A missing `userInfo` or `data` part leaves its columns
      NULL instead of failing, and a value that is not an object leaves them
      all NULL.  The JSON text of `event_data` is abstracted: the column
      holds the data value itself. */
  function ColumnsOf(ev: Value): (c: RowValues)
    ensures !ev.Obj? ==> c == NoValues
    ensures Get(Some(ev), "userInfo").None? ==>
      c.username.None? && c.hostname.None? && c.userEmail.None? && c.domain.None?
    ensures Get(Some(ev), "data").None? ==>
      && c.version.None? && c.platform.None? && c.nodeVersion.None? && c.arch.None?
      && c.installLocation.None? && c.eventData.None?
  {
    RowValues(
      Get(Some(ev), "event"), Get(Some(ev), "timestamp"), Get(Some(ev), "sessionId"),
      Sub(ev, "userInfo", "username"), Sub(ev, "userInfo", "hostname"),
      Sub(ev, "userInfo", "userEmail"), Sub(ev, "userInfo", "domain"),
      Sub(ev, "data", "version"), Sub(ev, "data", "platform"), Sub(ev, "data", "nodeVersion"),
      Sub(ev, "data", "arch"), Sub(ev, "data", "installLocation"),
      Get(Some(ev), "data"))
  }

  // ---------------------------------------------------------------------
  // Inserting

  /** What an insert came to: success, an error object, or an exception. */
  datatype InsertResult = Inserted | InsertError(message: string, code: string) | InsertThrew

  /** A call made to the store. */
  datatype Call = Insert(row: Row) | CreateTableSql

  /** The error means the table does not exist (yet). */
  predicate MissingTable(message: string, code: string) {
    Contains(message, "does not exist") || Contains(message, "relation") || code == "42P01"
  }

  datatype AddOutcome = AddOutcome(ok: bool, calls: seq<Call>, added: seq<Row>)

  /** `addEvent`, given whether a client is configured, the event (none for
      `undefined`), the clock at the first and at the retried insert, and the
      two insert outcomes.  A specification helper; `AddProtocol` and
      `RetryFailureGivesFalse` state its properties and `Collector.AddEvent`
      is proved against it. */
  function AddSpec(configured: bool, ev: Option<Value>, now: nat, retryNow: nat,
                   first: InsertResult, retry: InsertResult): AddOutcome
  {
    if !configured || ev.None? || ev.value.Null? then AddOutcome(false, [], [])
    else
      var row := Row(ColumnsOf(ev.value), now);
      match first
      case Inserted => AddOutcome(true, [Insert(row)], [row])
      case InsertThrew => AddOutcome(false, [Insert(row)], [])
      case InsertError(m, c) =>
        if !MissingTable(m, c) then AddOutcome(false, [Insert(row)], [])
        else
          var again := Row(ColumnsOf(ev.value), retryNow);
          AddOutcome(retry.Inserted?, [Insert(row), CreateTableSql, Insert(again)],
                     if retry.Inserted? then [again] else [])
  }

  /** The insert protocol: nothing happens without a client; the table is
      created and the insert retried at most once, and only after a
      missing-table error; the result is true exactly when one row was
      stored, and that row carries the event's columns. */
  lemma AddProtocol(configured: bool, ev: Option<Value>, now: nat, retryNow: nat,
                    first: InsertResult, retry: InsertResult)
    ensures var o := AddSpec(configured, ev, now, retryNow, first, retry);
      && (!configured ==> !o.ok && o.calls == [])
      && |o.calls| <= 3
      && (CreateTableSql in o.calls <==>
            configured && ev.Some? && !ev.value.Null? && first.InsertError? && MissingTable(first.message, first.code))
      && (o.ok <==> |o.added| == 1)
      && (o.ok ==> o.added[0].values == ColumnsOf(ev.value) && Insert(o.added[0]) in o.calls)
      && (first.InsertError? && !MissingTable(first.message, first.code) ==> !o.ok && |o.calls| <= 1)
  {
  }

  /** A missing-table error followed by a failed retry gives false after
      exactly one table creation and two inserts. */
  lemma RetryFailureGivesFalse(ev: Value, now: nat, retryNow: nat, retry: InsertResult)
    requires ev != Null && !retry.Inserted?
    ensures var o := AddSpec(true, Some(ev), now, retryNow, InsertError("table missing", "42P01"), retry);
      && !o.ok && o.added == []
      && o.calls == [Insert(Row(ColumnsOf(ev), now)), CreateTableSql, Insert(Row(ColumnsOf(ev), retryNow))]
  {
  }

  /** `createTable`: true on success and when the error says the table
      already exists; false without a client, on another error, or when the
      call throws. */
  datatype RpcResult = RpcOk | RpcError(message: string) | RpcThrew

  function CreateTable(configured: bool, r: RpcResult): (ok: bool)
    ensures ok <==> configured && (r.RpcOk? || (r.RpcError? && Contains(r.message, "already exists")))
  {
    if !configured then false
    else match r
      case RpcOk => true
      case RpcError(m) => Contains(m, "already exists")
      case RpcThrew => false
  }

  class Collector {
    /** A client exists: both SUPABASE_URL and SUPABASE_ANON_KEY are set. */
    const configured: bool
    /** The rows of `analytics_events`. */
    var table: seq<Row>
    /** Every call made to the store, in order. */
    var calls: seq<Call>

    constructor (configured: bool, table: seq<Row>)
      ensures this.configured == configured && this.table == table && calls == []
    {
      this.configured := configured;
      this.table := table;
      calls := [];
    }

    /** `addEvent`: never throws; a successful insert appends exactly one row. */
    method AddEvent(ev: Option<Value>, now: nat, retryNow: nat, first: InsertResult, retry: InsertResult)
      returns (ok: bool)
      modifies this`table, this`calls
      ensures var o := AddSpec(configured, ev, now, retryNow, first, retry);
        && ok == o.ok && calls == old(calls) + o.calls && table == old(table) + o.added
    {
      if !configured || ev.None? || ev.value.Null? {
        return false;
      }
      var row := Row(ColumnsOf(ev.value), now);
      calls := calls + [Insert(row)];
      if first.Inserted? {
        table := table + [row];
        return true;
      }
      if first.InsertThrew? || !MissingTable(first.message, first.code) {
        return false;
      }
      calls := calls + [CreateTableSql];
      var again := Row(ColumnsOf(ev.value), retryNow);
      calls := calls + [Insert(again)];
      if !retry.Inserted? {
        return false;
      }
      table := table + [again];
      ok := true;
    }
  }

  // ---------------------------------------------------------------------
  // Reading

  /** The queries `getStats` issues; a failed query yields `null` data. */
  datatype Query = TotalQuery | TodayQuery | UsersQuery | PlatformsQuery | RecentQuery

  /** What the store answers: an exception, or the table with the set of
      queries that came back with an error. */
  datatype StoreRead = ReadThrew | Read(rows: seq<Row>, failed: set<Query>)

  datatype CollectorStats = CollectorStats(
    totalEvents: nat, todayEvents: nat, uniqueUsers: nat,
    platforms: seq<Value>, recentEvents: seq<Value>,
    lastUpdated: string, isLive: bool, dataSource: string, message: Option<string>)

  const NotConfiguredMessage: string :=
    "Supabase not configured. Set SUPABASE_URL and SUPABASE_ANON_KEY environment variables."

  /** `getDemoStats`. */
  function DemoStats(nowIso: string): (s: CollectorStats)
    ensures s.totalEvents == 0 && s.todayEvents == 0 && s.uniqueUsers == 0 && s.platforms == []
    ensures s.dataSource == "demo" && s.message.Some? && |s.recentEvents| == 1
  {
    CollectorStats(0, 0, 0, [],
      [Obj(map["event" := Str("system_status"), "username" := Str("system"),
           "timestamp" := Str(nowIso), "platform" := Str("dashboard")])],
      nowIso, true, "demo",
      Some(NotConfiguredMessage))
  }

  /** The start of the UTC day containing `now`. */
  function DayStart(now: nat): nat {
    now - now % DayMillis
  }

  /** The day's count as written: created at or after midnight and strictly
      before 23:59:59.999 of the same UTC day.  A specification helper;
      `LastMillisecondMissed` states what it misses. */
  function TodayEventsAsWritten(rows: seq<Row>, now: nat): nat {
    Count(rows, (r: Row) => DayStart(now) <= r.createdAt < DayStart(now) + DayMillis - 1)
  }

  /** The day's count as intended: created at any time of the current UTC day.
      A specification helper; `TodayWindowIsTheDay` and
      `LastMillisecondMissed` state its properties. */
  function TodayEvents(rows: seq<Row>, now: nat): nat {
    Count(rows, (r: Row) => DayStart(now) <= r.createdAt < DayStart(now) + DayMillis)
  }

  /** The corrected window is exactly the UTC day of `now`. */
  lemma TodayWindowIsTheDay(c: nat, now: nat)
    ensures DayStart(now) <= c < DayStart(now) + DayMillis <==> c / DayMillis == now / DayMillis
  {
    assert DayStart(now) == (now / DayMillis) * DayMillis;
    if DayStart(now) <= c < DayStart(now) + DayMillis {
      assert (c - DayStart(now)) / DayMillis == 0;
      assert c == DayStart(now) + (c - DayStart(now));
    }
    if c / DayMillis == now / DayMillis {
      assert c == (c / DayMillis) * DayMillis + c % DayMillis;
    }
  }

  /** The written window misses an event created in the last millisecond of
      the day, although it belongs to the day; the corrected count has it. */
  lemma LastMillisecondMissed(now: nat, columns: RowValues)
    ensures var r := Row(columns, DayStart(now) + DayMillis - 1);
      && r.createdAt / DayMillis == now / DayMillis
      && TodayEventsAsWritten([r], now) == 0
      && TodayEvents([r], now) == 1
  {
    var r := Row(columns, DayStart(now) + DayMillis - 1);
    TodayWindowIsTheDay(r.createdAt, now);
    assert [r][1..] == [];
  }

  /** `row.username || 'Unknown'` and the like. */
  function OrUnknown(v: Option<Value>): Value {
    if Truthy(ColValue(v)) then ColValue(v) else Str("Unknown")
  }

  /** A projected field keeps a truthy column value and reads 'Unknown'
      in place of a NULL or empty one. */
  predicate KeptOrUnknown(col: Option<Value>, out: Value) {
    && (Truthy(ColValue(col)) ==> out == ColValue(col))
    && (!Truthy(ColValue(col)) ==> out == Str("Unknown"))
  }

  /** A recent event as `getStats` returns it. */
  datatype RecentEvent = RecentEvent(
    event: Value, username: Value, timestamp: Value, platform: Value, hostname: Value,
    userEmail: Value, domain: Value, version: Value, nodeVersion: Value, arch: Value,
    installLocation: Value, sessionId: Value, eventData: Value, createdAt: nat)
  {
    function ToJson(): Value {
      Obj(map[
        "event" := event, "username" := username, "timestamp" := timestamp,
        "platform" := platform, "hostname" := hostname, "userEmail" := userEmail,
        "domain" := domain, "version" := version, "nodeVersion" := nodeVersion,
        "arch" := arch, "installLocation" := installLocation, "sessionId" := sessionId,
        "eventData" := eventData, "createdAt" := Num(createdAt)])
    }
  }

  /** The projection of a recent row: every text field except the event name
      and timestamp defaults to 'Unknown' when NULL or empty, and a NULL
      `event_data` becomes an empty object. */
  function Project(r: Row): (e: RecentEvent)
    ensures e.event == ColValue(r.values.event) && e.timestamp == ColValue(r.values.timestamp)
    ensures && KeptOrUnknown(r.values.username, e.username)
            && KeptOrUnknown(r.values.platform, e.platform)
            && KeptOrUnknown(r.values.hostname, e.hostname)
            && KeptOrUnknown(r.values.userEmail, e.userEmail)
            && KeptOrUnknown(r.values.domain, e.domain)
            && KeptOrUnknown(r.values.version, e.version)
            && KeptOrUnknown(r.values.nodeVersion, e.nodeVersion)
            && KeptOrUnknown(r.values.arch, e.arch)
            && KeptOrUnknown(r.values.installLocation, e.installLocation)
            && KeptOrUnknown(r.values.sessionId, e.sessionId)
    ensures && Truthy(e.username) && Truthy(e.platform) && Truthy(e.hostname) && Truthy(e.userEmail)
            && Truthy(e.domain) && Truthy(e.version) && Truthy(e.nodeVersion) && Truthy(e.arch)
            && Truthy(e.installLocation) && Truthy(e.sessionId)
    ensures e.eventData == r.values.eventData.GetOr(Obj(map[]))
    ensures e.createdAt == r.createdAt
  {
    var v := r.values;
    RecentEvent(
      ColValue(v.event), OrUnknown(v.username), ColValue(v.timestamp), OrUnknown(v.platform),
      OrUnknown(v.hostname), OrUnknown(v.userEmail), OrUnknown(v.domain), OrUnknown(v.version),
      OrUnknown(v.nodeVersion), OrUnknown(v.arch), OrUnknown(v.installLocation),
      OrUnknown(v.sessionId), v.eventData.GetOr(Obj(map[])), r.createdAt)
  }

  function ProjectJson(r: Row): Value {
    Project(r).ToJson()
  }

  function CreatedAt(r: Row): int {
    r.createdAt
  }

  /** `ORDER BY created_at DESC` then `range(offset, offset + limit - 1)`.
      A range the store refuses (a negative offset, or no rows asked for)
      yields no data. */
  function RecentRows(rows: seq<Row>, limit: int, offset: int): (r: seq<Row>)
    ensures offset < 0 || limit < 1 ==> r == []
  {
    if offset < 0 || limit < 1 then []
    else Window(SortDesc(rows, CreatedAt), offset, limit)
  }

  /** The recent window: at most `limit` rows, exactly `limit` when enough
      rows exist past `offset`, the rows ranked `offset` onward by
      descending creation time, themselves in descending order, and all
      taken from the table. */
  lemma RecentWindow(rows: seq<Row>, limit: int, offset: int)
    requires offset >= 0 && limit >= 1
    ensures var r := RecentRows(rows, limit, offset);
      && |r| <= limit
      && (offset + limit <= |rows| ==> |r| == limit)
      && (forall i :: 0 <= i < |r| ==> r[i] == SortDesc(rows, CreatedAt)[offset + i])
      && (forall i, j :: 0 <= i < j < |r| ==> r[i].createdAt >= r[j].createdAt)
      && multiset(r) <= multiset(rows)
  {
    var sorted := SortDesc(rows, CreatedAt);
    var r := Window(sorted, offset, limit);
    WindowSlice(sorted, offset, limit);
    forall i, j | 0 <= i < j < |r|
      ensures r[i].createdAt >= r[j].createdAt
    {
      assert CreatedAt(sorted[offset + i]) >= CreatedAt(sorted[offset + j]);
    }
  }

  /** Two pages in a row do not overlap and leave no gap: page `k + 1`
      starts where page `k` ends. */
  lemma PagesTile(rows: seq<Row>, limit: int, offset: int)
    requires offset >= 0 && limit >= 1 && offset + 2 * limit <= |rows|
    ensures RecentRows(rows, limit, offset) + RecentRows(rows, limit, offset + limit) ==
            SortDesc(rows, CreatedAt)[offset..offset + 2 * limit]
  {
    WindowsTile(SortDesc(rows, CreatedAt), offset, limit);
  }

  function NonNull(vs: seq<Value>): seq<Value> {
    Filter(vs, NotNull)
  }

  function UsernameCol(r: Row): Value {
    ColValue(r.values.username)
  }

  function PlatformCol(r: Row): Value {
    ColValue(r.values.platform)
  }

  /** The platforms query, `[...new Set(data.map(r => r.platform))]` over
      the non-NULL platform column: each non-NULL platform of the table once,
      and nothing else. */
  function DistinctPlatforms(rows: seq<Row>): (ps: seq<Value>)
    ensures NoDup(ps) && Null !in ps
    ensures (set p | p in ps) == (set r | r in rows && NotNull(PlatformCol(r)) :: PlatformCol(r))
  {
    var found := NonNull(Map(rows, PlatformCol));
    MapFilterSet(rows, PlatformCol, NotNull);
    assert (set p | p in Dedup(found)) == (set p | p in found);
    Dedup(found)
  }

  /** The users query, `new Set(data.map(r => r.username)).size` over the
      non-NULL username column: the number of distinct non-NULL names.  An
      empty name is a name (the query filters NULL only). */
  function DistinctUsers(rows: seq<Row>): (n: nat)
    ensures n == |set r | r in rows && NotNull(UsernameCol(r)) :: UsernameCol(r)|
  {
    var names := NonNull(Map(rows, UsernameCol));
    MapFilterSet(rows, UsernameCol, NotNull);
    assert (set x | x in names) == (set r | r in rows && NotNull(UsernameCol(r)) :: UsernameCol(r));
    DistinctCount(names)
  }

  /** `getStats(limit, offset)`.  A query that failed contributes 0 or an
      empty list; a read that throws, like a missing client, yields the demo
      result.  The day's count uses the corrected window. */
  function GetStats(configured: bool, read: StoreRead, limit: int, offset: int,
                    now: nat, nowIso: string): (s: CollectorStats)
    ensures !configured || read.ReadThrew? ==> s == DemoStats(nowIso)
    ensures configured && read.Read? ==>
      && s.dataSource == "supabase" && s.message.None?
      && s.totalEvents == (if TotalQuery in read.failed then 0 else |read.rows|)
      && s.todayEvents == (if TodayQuery in read.failed then 0 else TodayEvents(read.rows, now))
      && |s.recentEvents| <= (if limit < 0 then 0 else limit)
      && NoDup(s.platforms) && Null !in s.platforms
    ensures configured && read.Read? ==>
      s.platforms == (if PlatformsQuery in read.failed then [] else DistinctPlatforms(read.rows))
    ensures configured && read.Read? ==>
      s.uniqueUsers == (if UsersQuery in read.failed then 0
                        else |set r | r in read.rows && NotNull(UsernameCol(r)) :: UsernameCol(r)|)
    ensures configured && read.Read? ==>
      s.recentEvents == (if RecentQuery in read.failed then []
                         else Map(RecentRows(read.rows, limit, offset), ProjectJson))
  {
    if !configured || read.ReadThrew? then DemoStats(nowIso)
    else
      var rows := read.rows;
      var platforms := if PlatformsQuery in read.failed then [] else DistinctPlatforms(rows);
      var recent := if RecentQuery in read.failed then [] else Map(RecentRows(rows, limit, offset), ProjectJson);
      CollectorStats(
        if TotalQuery in read.failed then 0 else |rows|,
        if TodayQuery in read.failed then 0 else TodayEvents(rows, now),
        if UsersQuery in read.failed then 0 else DistinctUsers(rows),
        platforms,
        recent,
        nowIso, true, "supabase", None)
  }
}
