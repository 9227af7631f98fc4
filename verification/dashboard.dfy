/** The self-hosted dashboard of analytics-dashboard/server.js: a SQLite table
    `analytics`, an ingestion endpoint that inserts one row per event and
    broadcasts it to connected dashboards, and four read endpoints whose
    SQL aggregations are stated here as functions of the table's rows.

    SQLite's reading of a timestamp (`datetime(timestamp)`) is a parameter
    `clock`; the current time `now` is in seconds. */
module Dashboard {
  import opened Json
  import opened Seqs
  import opened Http

  const Day: nat := 86400

  /** A row of the `analytics` table; SQL `NULL` is `Null`, and `eventData`
      holds the event's data object. */
  datatype DbRow = DbRow(
    id: nat, event: Value, timestamp: Value, sessionId: Value,
    username: Value, hostname: Value, userEmail: Value, domain: Value,
    version: Value, nodeVersion: Value, platform: Value, arch: Value,
    machineId: Value, installLocation: Value, eventData: Value, createdAt: nat)

  /** `datetime(v)` in seconds since the epoch, `None` where SQLite gives
      `NULL`. */
  type Clock = Value -> Option<nat>

  /** A row's time as an ordering key; `NULL` sorts below every time. */
  function When(clock: Clock, r: DbRow): int {
    match clock(r.timestamp)
    case None => -1
    case Some(t) => t
  }

  /** `datetime(timestamp) > datetime('now', -span)`. */
  predicate Within(clock: Clock, now: nat, span: nat, r: DbRow) {
    clock(r.timestamp).Some? && clock(r.timestamp).value > now - span
  }

  predicate IsEvent(r: DbRow, name: string) {
    r.event == Str(name)
  }

  function CountEvent(rows: seq<DbRow>, name: string): (n: nat)
    ensures n <= |rows|
  {
    Count(rows, r => IsEvent(r, name))
  }

  // ---------------------------------------------------------------------
  // Ingestion

  function Col(v: Option<Value>): Value {
    v.GetOr(Null)
  }

  /** The row `/api/usage` inserts, or `None` when reading `userInfo.*` or
      `data.*` throws because `userInfo` or `data` is missing or null. */
  function RowOf(body: Value, id: nat, now: nat): (r: Option<DbRow>)
    ensures r.Some? <==> NotNull(Col(Get(Some(body), "userInfo"))) && NotNull(Col(Get(Some(body), "data")))
    ensures r.Some? ==> r.value.id == id && r.value.createdAt == now
    ensures r.Some? ==> r.value.eventData == Col(Get(Some(body), "data"))
  {
    var b := Some(body);
    var userInfo := Get(b, "userInfo");
    var data := Get(b, "data");
    if !NotNull(Col(userInfo)) || !NotNull(Col(data)) then None
    else Some(DbRow(id,
      Col(Get(b, "event")), Col(Get(b, "timestamp")), Col(Get(b, "sessionId")),
      Col(Get(userInfo, "username")), Col(Get(userInfo, "hostname")),
      Col(Get(userInfo, "userEmail")), Col(Get(userInfo, "domain")),
      Col(Get(data, "version")), Col(Get(data, "nodeVersion")), Col(Get(data, "platform")),
      Col(Get(data, "arch")), Col(Get(data, "machineId")), Col(Get(data, "installLocation")),
      Col(data), now))
  }

  /** The three `NOT NULL` columns are present, so SQLite accepts the row. */
  predicate Insertable(r: DbRow) {
    NotNull(r.event) && NotNull(r.timestamp) && NotNull(r.sessionId)
  }

  /** A message field as it arrives: the value when it was defined, and no
      key at all when it was `undefined`. */
  predicate Carries(m: map<string, Value>, k: string, v: Option<Value>) {
    && (v.Some? ==> k in m && m[k] == v.value)
    && (v.None? ==> k !in m)
  }

  /** Adding a further entry `k: v` to a message that lacks `k`. */
  lemma CarriesAdded(m: map<string, Value>, k: string, v: Option<Value>)
    requires k !in m
    ensures Carries(m + Defined(k, v), k, v)
    ensures (m + Defined(k, v)).Keys <= m.Keys + {k}
  {
  }

  /** Adding an entry under another key leaves what a field carries as it was. */
  lemma CarriesKept(m: map<string, Value>, k: string, v: Option<Value>, j: string, w: Option<Value>)
    requires Carries(m, j, w) && j != k
    ensures Carries(m + Defined(k, v), j, w)
  {
  }

  /** The `newEvent` message: the five fields, those that are `undefined`
      dropped in transit. */
  function Broadcast(body: Value): (m: Value)
    ensures m.Obj? && m.fields.Keys <= {"event", "timestamp", "username", "hostname", "userEmail"}
  {
    var b := Some(body);
    var userInfo := Get(b, "userInfo");
    Obj(Defined("event", Get(b, "event")) + Defined("timestamp", Get(b, "timestamp")) +
        Defined("username", Get(userInfo, "username")) + Defined("hostname", Get(userInfo, "hostname")) +
        Defined("userEmail", Get(userInfo, "userEmail")))
  }

  /** Each field of the message is the body's value where the body defines
      it, and is absent where the body leaves it `undefined`. */
  lemma BroadcastCarries(body: Value)
    ensures var m := Broadcast(body).fields;
      var b := Some(body); var userInfo := Get(b, "userInfo");
      && Carries(m, "event", Get(b, "event"))
      && Carries(m, "timestamp", Get(b, "timestamp"))
      && Carries(m, "username", Get(userInfo, "username"))
      && Carries(m, "hostname", Get(userInfo, "hostname"))
      && Carries(m, "userEmail", Get(userInfo, "userEmail"))
  {
    var b := Some(body);
    var userInfo := Get(b, "userInfo");
    var e, t := Get(b, "event"), Get(b, "timestamp");
    var u, h, x := Get(userInfo, "username"), Get(userInfo, "hostname"), Get(userInfo, "userEmail");
    var m0 := Defined("event", e);
    var m1 := m0 + Defined("timestamp", t);
    CarriesAdded(m0, "timestamp", t);
    CarriesKept(m0, "timestamp", t, "event", e);
    var m2 := m1 + Defined("username", u);
    CarriesAdded(m1, "username", u);
    CarriesKept(m1, "username", u, "event", e);
    CarriesKept(m1, "username", u, "timestamp", t);
    var m3 := m2 + Defined("hostname", h);
    CarriesAdded(m2, "hostname", h);
    CarriesKept(m2, "hostname", h, "event", e);
    CarriesKept(m2, "hostname", h, "timestamp", t);
    CarriesKept(m2, "hostname", h, "username", u);
    var m4 := m3 + Defined("userEmail", x);
    CarriesAdded(m3, "userEmail", x);
    CarriesKept(m3, "userEmail", x, "event", e);
    CarriesKept(m3, "userEmail", x, "timestamp", t);
    CarriesKept(m3, "userEmail", x, "username", u);
    CarriesKept(m3, "userEmail", x, "hostname", h);
    assert Broadcast(body).fields == m4;
  }

  /** A column as the insert fills it: the field's value, or `NULL` when the
      field is `undefined`. */
  predicate Lands(col: Value, v: Option<Value>) {
    && (v.Some? ==> col == v.value)
    && (v.None? ==> col == Null)
  }

  /** The column mapping for every body the insert accepts: the top-level
      fields, the `userInfo` fields and the `data` fields each land in their
      own column, a missing field leaves its column `NULL`, and SQLite takes
      the row exactly when the event, timestamp and session id are present
      and not null. */
  lemma ColumnMapping(body: Value, id: nat, now: nat)
    requires NotNull(Col(Get(Some(body), "userInfo"))) && NotNull(Col(Get(Some(body), "data")))
    ensures var r := RowOf(body, id, now);
      var b := Some(body);
      var userInfo := Get(b, "userInfo");
      var data := Get(b, "data");
      && r.Some?
      && Lands(r.value.event, Get(b, "event")) && Lands(r.value.timestamp, Get(b, "timestamp"))
      && Lands(r.value.sessionId, Get(b, "sessionId"))
      && Lands(r.value.username, Get(userInfo, "username")) && Lands(r.value.hostname, Get(userInfo, "hostname"))
      && Lands(r.value.userEmail, Get(userInfo, "userEmail")) && Lands(r.value.domain, Get(userInfo, "domain"))
      && Lands(r.value.version, Get(data, "version")) && Lands(r.value.nodeVersion, Get(data, "nodeVersion"))
      && Lands(r.value.platform, Get(data, "platform")) && Lands(r.value.arch, Get(data, "arch"))
      && Lands(r.value.machineId, Get(data, "machineId"))
      && Lands(r.value.installLocation, Get(data, "installLocation"))
      && r.value.eventData == data.value
      && (Insertable(r.value) <==>
            NotNull(Col(Get(b, "event"))) && NotNull(Col(Get(b, "timestamp"))) && NotNull(Col(Get(b, "sessionId"))))
  {
  }

  class Db {
    /** The `analytics` table, in insertion order. */
    var rows: seq<DbRow>
    /** The next AUTOINCREMENT id. */
    var nextId: nat
    /** The `newEvent` messages emitted so far. */
    var broadcasts: seq<Value>

    /** Ids are given out in increasing order and none is reused. */
    predicate Valid()
      reads this
    {
      && nextId >= 1
      && (forall i :: 0 <= i < |rows| ==> 1 <= rows[i].id < nextId)
      && (forall i, j :: 0 <= i < j < |rows| ==> rows[i].id < rows[j].id)
    }

    constructor ()
      ensures rows == [] && broadcasts == [] && nextId == 1 && Valid()
    {
      rows := [];
      nextId := 1;
      broadcasts := [];
    }

    /** `POST /api/usage`.  When `userInfo` or `data` is missing the handler
        throws before anything is written or sent and answers 500.
        Otherwise it broadcasts one message and answers `success: true`; the
        row itself is stored when its `NOT NULL` columns are present (the
        insert completes after the answer is sent, so the answer is the same
        either way). */
    method Ingest(body: Value, now: nat) returns (reply: Reply)
      requires Valid()
      modifies this
      ensures Valid()
      ensures RowOf(body, old(nextId), now).None? ==>
        && reply == Reply(500, Some(Obj(map["error" := Str("Failed to record analytics")])))
        && rows == old(rows) && broadcasts == old(broadcasts) && nextId == old(nextId)
      ensures RowOf(body, old(nextId), now).Some? ==>
        var row := RowOf(body, old(nextId), now).value;
        && reply == Reply(200, Some(Obj(map["success" := Bool(true)])))
        && broadcasts == old(broadcasts) + [Broadcast(body)]
        && (Insertable(row) ==> rows == old(rows) + [row] && nextId == old(nextId) + 1)
        && (!Insertable(row) ==> rows == old(rows) && nextId == old(nextId))
    {
      var row := RowOf(body, nextId, now);
      if row.None? {
        return Reply(500, Some(Obj(map["error" := Str("Failed to record analytics")])));
      }
      if Insertable(row.value) {
        rows := rows + [row.value];
        nextId := nextId + 1;
      }
      broadcasts := broadcasts + [Broadcast(body)];
      reply := Reply(200, Some(Obj(map["success" := Bool(true)])));
    }
  }

  /** Two ingests of complete events add two rows with increasing ids and
      two broadcasts. */
  method TwoIngests(a: Value, b: Value, now: nat) returns (db: Db)
    requires RowOf(a, 1, now).Some? && Insertable(RowOf(a, 1, now).value)
    requires RowOf(b, 2, now).Some? && Insertable(RowOf(b, 2, now).value)
    ensures |db.rows| == 2 && db.rows[0].id == 1 && db.rows[1].id == 2
    ensures db.broadcasts == [Broadcast(a), Broadcast(b)]
  {
    db := new Db();
    var r1 := db.Ingest(a, now);
    var r2 := db.Ingest(b, now);
  }

  // ---------------------------------------------------------------------
  // GET /api/stats

  /** `COUNT(*) WHERE event = 'install_success'`.  A specification helper;
      `Stats` states its place in the answer. */
  function TotalInstalls(rows: seq<DbRow>): nat {
    CountEvent(rows, "install_success")
  }

  function UsernameOf(r: DbRow): Value {
    r.username
  }

  /** `COUNT(DISTINCT username)`: the number of distinct non-`NULL` names. */
  function UniqueUsers(rows: seq<DbRow>): (n: nat)
    ensures n == |set r | r in rows && NotNull(r.username) :: r.username|
  {
    var names := Filter(Map(rows, UsernameOf), NotNull);
    MapFilterSet(rows, UsernameOf, NotNull);
    var distinct := set x | x in names;
    assert distinct == (set r | r in rows && NotNull(r.username) :: r.username);
    DistinctCount(names)
  }

  /** `Math.round(100.0 * s / d)` in integers, and 0 when `d` is 0 (SQLite
      gives `NULL` for a division by zero, and `NULL || 0` is 0). */
  function RoundedPercent(s: nat, d: nat): (p: nat) {
    if d == 0 then 0 else (200 * s + d) / (2 * d)
  }

  lemma MulCancel(a: nat, x: nat, y: nat)
    requires a > 0 && a * x < a * y
    ensures x < y
  {
  }

  /** The rounded percentage is the nearest whole number to `100 s / d`
      (halves round up), so it is at most 100 when `s <= d`. */
  lemma {:induction false} RoundedPercentIsNearest(s: nat, d: nat)
    requires d > 0
    ensures var p := RoundedPercent(s, d);
      var e: int := 100 * s - d * p;
      -(d as int) <= 2 * e < d
    ensures s <= d ==> RoundedPercent(s, d) <= 100
  {
    var p := RoundedPercent(s, d);
    var q := 200 * s + d;
    assert q == 2 * d * p + q % (2 * d);
    assert 0 <= q % (2 * d) < 2 * d;
    if s <= d {
      assert 2 * d * p < 2 * d * 101;
      MulCancel(2 * d, p, 101);
    }
  }

  /** The success rate over installs that finished.  A specification
      helper; `SuccessRateBounded`, `RoundedPercentIsNearest` and
      `SevenOfTen` state its properties. */
  function SuccessRate(rows: seq<DbRow>): nat {
    var s := CountEvent(rows, "install_success");
    RoundedPercent(s, s + CountEvent(rows, "install_error"))
  }

  lemma SuccessRateBounded(rows: seq<DbRow>)
    ensures SuccessRate(rows) <= 100
    ensures CountEvent(rows, "install_success") == 0 ==> SuccessRate(rows) == 0
  {
    var s := CountEvent(rows, "install_success");
    var d := s + CountEvent(rows, "install_error");
    if d > 0 {
      RoundedPercentIsNearest(s, d);
    }
  }

  /** Seven successes and three errors are a 70% success rate. */
  lemma SevenOfTen(rows: seq<DbRow>)
    requires CountEvent(rows, "install_success") == 7 && CountEvent(rows, "install_error") == 3
    ensures SuccessRate(rows) == 70
  {
  }

  /** A line of the 24-hour activity: an event name and its count. */
  datatype EventCount = EventCount(event: Value, count: nat)

  /** The rows of the last 24 hours. */
  function LastDay(rows: seq<DbRow>, clock: Clock, now: nat): seq<DbRow> {
    Filter(rows, r => Within(clock, now, Day, r))
  }

  function EventOf(r: DbRow): Value {
    r.event
  }

  /** How many rows carry the event `e`. */
  function Tally(rows: seq<DbRow>, e: Value): nat {
    Count(rows, (r: DbRow) => r.event == e)
  }

  /** A row carrying `e` makes its tally positive. */
  lemma TallyPositive(rows: seq<DbRow>, e: Value, k: nat)
    requires k < |rows| && rows[k].event == e
    ensures Tally(rows, e) >= 1
  {
    assert rows[k] in Filter(rows, (r: DbRow) => r.event == e);
  }

  function Tallies(rows: seq<DbRow>, events: seq<Value>): (g: seq<EventCount>)
    ensures |g| == |events|
    ensures forall i :: 0 <= i < |g| ==> g[i] == EventCount(events[i], Tally(rows, events[i]))
  {
    if events == [] then [] else [EventCount(events[0], Tally(rows, events[0]))] + Tallies(rows, events[1..])
  }

  /** `SELECT event, COUNT(*) ... WHERE datetime(timestamp) > datetime('now',
      '-1 day') GROUP BY event`.  SQL leaves the order of the groups
      unspecified; the model fixes it as the order of first appearance.  A
      specification helper; `RecentActivityCounts` and `RecentActivityCovers`
      state its properties. */
  function RecentActivity(rows: seq<DbRow>, clock: Clock, now: nat): seq<EventCount> {
    var recent := LastDay(rows, clock, now);
    Tallies(recent, Dedup(Map(recent, EventOf)))
  }

  /** One line per event name seen in the last day, each with the number of
      that day's rows carrying it. */
  lemma RecentActivityCounts(rows: seq<DbRow>, clock: Clock, now: nat)
    ensures var g := RecentActivity(rows, clock, now);
      && NoDup(Map(g, (c: EventCount) => c.event))
      && (forall i :: 0 <= i < |g| ==> g[i].count == Tally(LastDay(rows, clock, now), g[i].event) >= 1)
  {
    var recent := LastDay(rows, clock, now);
    var events := Map(recent, EventOf);
    var keys := Dedup(events);
    var g := RecentActivity(rows, clock, now);
    assert Map(g, (c: EventCount) => c.event) == keys;
    forall i | 0 <= i < |g|
      ensures g[i].count >= 1
    {
      assert keys[i] in keys;
      var k :| 0 <= k < |events| && events[k] == keys[i];
      TallyPositive(recent, keys[i], k);
    }
  }

  /** Every row of the last day is counted under its event name. */
  lemma RecentActivityCovers(rows: seq<DbRow>, clock: Clock, now: nat, r: DbRow)
    requires r in rows && Within(clock, now, Day, r)
    ensures exists i :: 0 <= i < |RecentActivity(rows, clock, now)| && RecentActivity(rows, clock, now)[i].event == r.event
  {
    var recent := LastDay(rows, clock, now);
    var events := Map(recent, EventOf);
    var keys := Dedup(events);
    var g := RecentActivity(rows, clock, now);
    assert r in recent;
    var k :| 0 <= k < |recent| && recent[k] == r;
    assert events[k] == r.event;
    var i :| 0 <= i < |keys| && keys[i] == r.event;
    assert g[i].event == r.event;
  }

  datatype StatsErrors = StatsErrors(total: Option<string>, users: Option<string>,
                                     rate: Option<string>, activity: Option<string>)

  datatype DashboardStats = DashboardStats(totalInstalls: nat, uniqueUsers: nat,
                                           successRate: nat, recentActivity: seq<EventCount>)

  /** A read endpoint's answer: the result, or 500 with the database's
      message. */
  datatype Answer<T> = Served(value: T) | DbFailed(message: string) {
    function Status(): int {
      if Served? then 200 else 500
    }
  }

  /** `GET /api/stats`: four queries in turn; the first that fails ends the
      request with its message. */
  function Stats(rows: seq<DbRow>, clock: Clock, now: nat, errs: StatsErrors): (a: Answer<DashboardStats>)
    ensures a.DbFailed? <==> errs.total.Some? || errs.users.Some? || errs.rate.Some? || errs.activity.Some?
    ensures errs.total.Some? ==> a == DbFailed(errs.total.value)
    ensures errs.total.None? && errs.users.Some? ==> a == DbFailed(errs.users.value)
    ensures errs.total.None? && errs.users.None? && errs.rate.Some? ==> a == DbFailed(errs.rate.value)
    ensures errs.total.None? && errs.users.None? && errs.rate.None? && errs.activity.Some? ==>
      a == DbFailed(errs.activity.value)
    ensures a.Served? ==>
      && a.value.totalInstalls == CountEvent(rows, "install_success") <= |rows|
      && a.value.uniqueUsers == |set r | r in rows && NotNull(r.username) :: r.username|
      && a.value.successRate == SuccessRate(rows) <= 100
      && a.value.recentActivity == RecentActivity(rows, clock, now)
  {
    if errs.total.Some? then DbFailed(errs.total.value)
    else if errs.users.Some? then DbFailed(errs.users.value)
    else if errs.rate.Some? then DbFailed(errs.rate.value)
    else if errs.activity.Some? then DbFailed(errs.activity.value)
    else
      SuccessRateBounded(rows);
      Served(DashboardStats(TotalInstalls(rows), UniqueUsers(rows), SuccessRate(rows),
                            RecentActivity(rows, clock, now)))
  }

  // ---------------------------------------------------------------------
  // GET /api/recent

  datatype RecentInstall = RecentInstall(username: Value, hostname: Value, userEmail: Value,
                                         timestamp: Value, event: Value, platform: Value, version: Value)

  predicate IsInstallEvent(r: DbRow) {
    IsEvent(r, "install_success") || IsEvent(r, "install_start")
  }

  function ProjectRecent(r: DbRow): RecentInstall {
    RecentInstall(r.username, r.hostname, r.userEmail, r.timestamp, r.event, r.platform, r.version)
  }

  /** The install rows, newest first. */
  function InstallsNewestFirst(rows: seq<DbRow>, clock: Clock): seq<DbRow> {
    SortDesc(Filter(rows, IsInstallEvent), r => When(clock, r))
  }

  /** `WHERE event IN ('install_success', 'install_start') ORDER BY
      datetime(timestamp) DESC LIMIT 50`.  A specification helper;
      `RecentIsNewestInstalls` states its properties. */
  function Recent(rows: seq<DbRow>, clock: Clock): seq<RecentInstall> {
    Map(Window(InstallsNewestFirst(rows, clock), 0, 50), ProjectRecent)
  }

  /** At most 50 rows, all install starts or successes, newest first, and
      none left out is newer than one kept; there are 50 whenever the table
      has that many such rows. */
  lemma RecentIsNewestInstalls(rows: seq<DbRow>, clock: Clock)
    ensures var sorted := InstallsNewestFirst(rows, clock);
      var r := Recent(rows, clock);
      && |r| == (if |sorted| < 50 then |sorted| else 50)
      && |sorted| == Count(rows, IsInstallEvent)
      && (forall i :: 0 <= i < |r| ==> r[i] == ProjectRecent(sorted[i]) && IsInstallEvent(sorted[i]) && sorted[i] in rows)
      && (forall i, j :: 0 <= i < j < |r| ==> When(clock, sorted[i]) >= When(clock, sorted[j]))
      && (forall i, j :: 0 <= i < |r| <= j < |sorted| ==> When(clock, sorted[j]) <= When(clock, sorted[i]))
  {
    var installs := Filter(rows, IsInstallEvent);
    var sorted := InstallsNewestFirst(rows, clock);
    forall i | 0 <= i < |sorted|
      ensures IsInstallEvent(sorted[i]) && sorted[i] in rows
    {
      assert sorted[i] in multiset(installs);
    }
  }

  // ---------------------------------------------------------------------
  // GET /api/usage-over-time

  datatype DayCount = DayCount(date: int, installations: nat)

  /** `DATE(timestamp)` as a day number. */
  function DateOf(clock: Clock, r: DbRow): int {
    When(clock, r) / Day
  }

  /** Successful installs of the trailing 30 days. */
  function LastMonthInstalls(rows: seq<DbRow>, clock: Clock, now: nat): seq<DbRow> {
    Filter(rows, r => IsEvent(r, "install_success") && Within(clock, now, 30 * Day, r))
  }

  function Dates(q: seq<DbRow>, clock: Clock): (ds: seq<int>)
    ensures |ds| == |q|
    ensures forall i :: 0 <= i < |q| ==> ds[i] == DateOf(clock, q[i])
  {
    Map(q, r => DateOf(clock, r))
  }

  /** How many rows fall on day `d`. */
  function OnDay(q: seq<DbRow>, clock: Clock, d: int): nat {
    Count(q, r => DateOf(clock, r) == d)
  }

  lemma OnDayPositive(q: seq<DbRow>, clock: Clock, d: int, k: nat)
    requires k < |q| && DateOf(clock, q[k]) == d
    ensures OnDay(q, clock, d) >= 1
  {
    assert q[k] in Filter(q, r => DateOf(clock, r) == d);
  }

  function PerDay(q: seq<DbRow>, clock: Clock, days: seq<int>): (u: seq<DayCount>)
    ensures |u| == |days|
    ensures forall i :: 0 <= i < |u| ==> u[i] == DayCount(days[i], OnDay(q, clock, days[i]))
  {
    if days == [] then [] else [DayCount(days[0], OnDay(q, clock, days[0]))] + PerDay(q, clock, days[1..])
  }

  /** `SELECT DATE(timestamp), COUNT(*) ... GROUP BY DATE(timestamp) ORDER BY
      date` over the successful installs of the trailing 30 days.  A
      specification helper; `UsageOverTimeMeaning` and `UsageOverTimeCovers`
      state its properties. */
  function UsageOverTime(rows: seq<DbRow>, clock: Clock, now: nat): seq<DayCount> {
    var q := LastMonthInstalls(rows, clock, now);
    PerDay(q, clock, Ascending(Dates(q, clock)))
  }

  /** Dates ascend strictly, each within the last 30 days and with its
      number of successful installs. */
  lemma UsageOverTimeMeaning(rows: seq<DbRow>, clock: Clock, now: nat)
    ensures var u := UsageOverTime(rows, clock, now);
      var q := LastMonthInstalls(rows, clock, now);
      && (forall i, j :: 0 <= i < j < |u| ==> u[i].date < u[j].date)
      && (forall i :: 0 <= i < |u| ==> u[i].installations == OnDay(q, clock, u[i].date) >= 1)
      && (forall i :: 0 <= i < |u| ==> u[i].date >= (now - 30 * Day) / Day)
  {
    var q := LastMonthInstalls(rows, clock, now);
    var dates := Dates(q, clock);
    var asc := Ascending(dates);
    var u := UsageOverTime(rows, clock, now);
    forall i | 0 <= i < |u|
      ensures u[i].installations >= 1 && u[i].date >= (now - 30 * Day) / Day
    {
      assert asc[i] in asc;
      var k :| 0 <= k < |dates| && dates[k] == asc[i];
      OnDayPositive(q, clock, asc[i], k);
      assert q[k] in q;
      assert Within(clock, now, 30 * Day, q[k]);
      DivMonotone(now - 30 * Day, When(clock, q[k]));
    }
  }

  /** Every successful install of the last 30 days is counted on its day. */
  lemma UsageOverTimeCovers(rows: seq<DbRow>, clock: Clock, now: nat, r: DbRow)
    requires r in LastMonthInstalls(rows, clock, now)
    ensures exists i :: 0 <= i < |UsageOverTime(rows, clock, now)| && UsageOverTime(rows, clock, now)[i].date == DateOf(clock, r)
  {
    var q := LastMonthInstalls(rows, clock, now);
    var dates := Dates(q, clock);
    var asc := Ascending(dates);
    var u := UsageOverTime(rows, clock, now);
    var k :| 0 <= k < |q| && q[k] == r;
    assert dates[k] == DateOf(clock, r);
    assert DateOf(clock, r) in asc;
    var i :| 0 <= i < |asc| && asc[i] == DateOf(clock, r);
    assert u[i].date == DateOf(clock, r);
  }

  lemma DivMonotone(a: int, b: int)
    requires a < b
    ensures a / Day <= b / Day
  {
  }

  // ---------------------------------------------------------------------
  // GET /api/users

  datatype UserRow = UserRow(username: Value, userEmail: Value, hostname: Value,
                             lastSeen: Value, totalEvents: nat, successfulInstalls: nat)

  datatype UserKey = UserKey(username: Value, hostname: Value)

  function KeyOf(r: DbRow): UserKey {
    UserKey(r.username, r.hostname)
  }

  /** The rows of one (username, hostname) group; `NULL`s group together. */
  function Group(rows: seq<DbRow>, k: UserKey): seq<DbRow> {
    Filter(rows, r => KeyOf(r) == k)
  }

  /** The group's latest row (`MAX(timestamp)`).  The source compares the
      stored timestamp text; `clock` stands for that ranking, which agrees
      with SQLite's text order for the ISO 8601 timestamps the clients send. */
  function Latest(g: seq<DbRow>, clock: Clock): (r: DbRow)
    requires |g| > 0
    ensures r in g
    ensures forall x :: x in g ==> When(clock, x) <= When(clock, r)
  {
    MaxBy(g, r => When(clock, r))
  }

  /** One group's line.  `userEmail` and `lastSeen` come from the group's
      latest row, as SQLite takes bare columns from the row holding the
      `MAX`. */
  function Rollup(rows: seq<DbRow>, clock: Clock, k: UserKey): (u: UserRow)
    requires k in Map(rows, KeyOf)
    ensures u.username == k.username && u.hostname == k.hostname
  {
    var g := Group(rows, k);
    var i :| 0 <= i < |rows| && KeyOf(rows[i]) == k;
    assert rows[i] in g;
    var latest := Latest(g, clock);
    UserRow(k.username, latest.userEmail, k.hostname, latest.timestamp,
            |g|, CountEvent(g, "install_success"))
  }

  /** What a line says about its group. */
  predicate Describes(rows: seq<DbRow>, clock: Clock, u: UserRow) {
    var g := Group(rows, UserKey(u.username, u.hostname));
    && u.totalEvents == |g| >= 1
    && u.successfulInstalls == CountEvent(g, "install_success") <= u.totalEvents
    && exists r :: r in g && r.timestamp == u.lastSeen && r.userEmail == u.userEmail
         && forall x :: x in g ==> When(clock, x) <= When(clock, r)
  }

  lemma RollupDescribes(rows: seq<DbRow>, clock: Clock, k: UserKey)
    requires k in Map(rows, KeyOf)
    ensures Describes(rows, clock, Rollup(rows, clock, k))
  {
    var g := Group(rows, k);
    var i :| 0 <= i < |rows| && KeyOf(rows[i]) == k;
    assert rows[i] in g;
    var latest := Latest(g, clock);
    assert Rollup(rows, clock, k).lastSeen == latest.timestamp;
    assert Rollup(rows, clock, k).userEmail == latest.userEmail;
  }

  function LastSeen(clock: Clock, u: UserRow): int {
    match clock(u.lastSeen)
    case None => -1
    case Some(t) => t
  }

  function Rollups(rows: seq<DbRow>, clock: Clock, keys: seq<UserKey>): (us: seq<UserRow>)
    requires forall i :: 0 <= i < |keys| ==> keys[i] in Map(rows, KeyOf)
    ensures |us| == |keys|
    ensures forall i :: 0 <= i < |keys| ==> us[i] == Rollup(rows, clock, keys[i])
  {
    seq(|keys|, i requires 0 <= i < |keys| => Rollup(rows, clock, keys[i]))
  }

  /** The distinct (username, hostname) pairs, in order of first appearance. */
  function UserKeys(rows: seq<DbRow>): (keys: seq<UserKey>)
    ensures forall i :: 0 <= i < |keys| ==> keys[i] in Map(rows, KeyOf)
    ensures forall r :: r in rows ==> KeyOf(r) in keys
    ensures |keys| == DistinctCount(Map(rows, KeyOf))
  {
    var ks := Map(rows, KeyOf);
    assert forall r :: r in rows ==> KeyOf(r) in ks by {
      forall r | r in rows
        ensures KeyOf(r) in ks
      {
        var k :| 0 <= k < |rows| && rows[k] == r;
        assert ks[k] == KeyOf(r);
      }
    }
    Dedup(ks)
  }

  /** `GROUP BY username, hostname ORDER BY lastSeen DESC`, with `clock`
      standing for the order of the stored timestamps. */
  function Users(rows: seq<DbRow>, clock: Clock): (us: seq<UserRow>)
    ensures multiset(us) == multiset(Rollups(rows, clock, UserKeys(rows)))
    ensures |us| == DistinctCount(Map(rows, KeyOf))
    ensures forall i, j :: 0 <= i < j < |us| ==> LastSeen(clock, us[i]) >= LastSeen(clock, us[j])
  {
    SortDesc(Rollups(rows, clock, UserKeys(rows)), u => LastSeen(clock, u))
  }

  /** Each line describes one group: it counts the group's rows, at least
      one, and the group's successful installs, and its last-seen time and
      e-mail are those of the group's latest row. */
  lemma UsersDescribeGroups(rows: seq<DbRow>, clock: Clock, u: UserRow)
    requires u in Users(rows, clock)
    ensures Describes(rows, clock, u)
  {
    var keys := UserKeys(rows);
    PermutationMember(u, Users(rows, clock), Rollups(rows, clock, keys));
    RollupsDescribe(rows, clock, keys, u);
  }

  lemma RollupsDescribe(rows: seq<DbRow>, clock: Clock, keys: seq<UserKey>, u: UserRow)
    requires forall i :: 0 <= i < |keys| ==> keys[i] in Map(rows, KeyOf)
    requires u in Rollups(rows, clock, keys)
    ensures Describes(rows, clock, u)
  {
    var lines := Rollups(rows, clock, keys);
    var i :| 0 <= i < |lines| && lines[i] == u;
    RollupDescribes(rows, clock, keys[i]);
  }

  /** Every row belongs to a listed group. */
  lemma UsersCoverRows(rows: seq<DbRow>, clock: Clock, r: DbRow)
    requires r in rows
    ensures exists u :: u in Users(rows, clock) && u.username == r.username && u.hostname == r.hostname
  {
    var keys := UserKeys(rows);
    var lines := Rollups(rows, clock, keys);
    var us := Users(rows, clock);
    assert KeyOf(r) in keys;
    var i :| 0 <= i < |keys| && keys[i] == KeyOf(r);
    var u := lines[i];
    assert u == Rollup(rows, clock, keys[i]);
    PermutationMember(u, us, lines);
    assert u in us && u.username == r.username && u.hostname == r.hostname;
  }

  /** The read endpoints: the rows, or 500 when the query fails.  They are
      functions of the table, so reading never changes it. */
  function RecentEndpoint(rows: seq<DbRow>, clock: Clock, err: Option<string>): (a: Answer<seq<RecentInstall>>)
    ensures a.Status() == 500 <==> err.Some?
    ensures a.Served? ==> a.value == Recent(rows, clock) && |a.value| <= 50
    ensures a.DbFailed? ==> a.message == err.value
  {
    if err.Some? then DbFailed(err.value) else Served(Recent(rows, clock))
  }

  function UsageOverTimeEndpoint(rows: seq<DbRow>, clock: Clock, now: nat, err: Option<string>): (a: Answer<seq<DayCount>>)
    ensures a.Status() == 500 <==> err.Some?
    ensures a.Served? ==> a.value == UsageOverTime(rows, clock, now)
    ensures a.DbFailed? ==> a.message == err.value
  {
    if err.Some? then DbFailed(err.value) else Served(UsageOverTime(rows, clock, now))
  }

  function UsersEndpoint(rows: seq<DbRow>, clock: Clock, err: Option<string>): (a: Answer<seq<UserRow>>)
    ensures a.Status() == 500 <==> err.Some?
    ensures a.Served? ==> a.value == Users(rows, clock)
    ensures a.DbFailed? ==> a.message == err.value
  {
    if err.Some? then DbFailed(err.value) else Served(Users(rows, clock))
  }
}
