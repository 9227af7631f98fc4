/** The file-backed event store of vercel-analytics/lib/storage.js.  Events
    are kept as a JSON array in /tmp/analytics-data.json: each append loads
    the array, pushes one record and saves the last 1000; statistics are
    derived from the loaded array without writing.

    The file's content, the clock, the random part of an event id, and the
    comparison of a timestamp with today's date are parameters. */
module EventStorage {
  import opened Json
  import opened Seqs
  import opened Files

  /** How many events the store keeps. */
  const Cap: nat := 1000

  /** `loadData`: the parsed file content, or an empty array when the file is
      missing or does not parse.  Parsed content that is not an array is
      returned as it is. */
  function Loaded(file: Option<Doc>): (v: Value)
    ensures file.None? || file.value.Plain? ==> v == Arr([])
  {
    if file.Some? && file.value.JsonDoc? then file.value.v else Arr([])
  }

  /** The record `addEvent` appends: the caller's fields, then `id` and
      `received_at`, which override caller fields of the same name. */
  function Record(eventData: map<string, Value>, id: Value, nowIso: string): (r: Value)
    ensures r.Obj? && r.fields.Keys == eventData.Keys + {"id", "received_at"}
    ensures r.fields["id"] == id && r.fields["received_at"] == Str(nowIso)
    ensures forall k :: k in eventData && k != "id" && k != "received_at" ==> r.fields[k] == eventData[k]
  {
    Obj(eventData + map["id" := id, "received_at" := Str(nowIso)])
  }

  // ---------------------------------------------------------------------
  // Statistics

  /** `item.userInfo?.username`; `undefined` is `Null` here, as both are
      dropped by `filter(Boolean)`. */
  function UsernameOf(item: Value): Value {
    Get(Get(Some(item), "userInfo"), "username").GetOr(Null)
  }

  /** `item.data?.platform`, in the same way. */
  function PlatformOf(item: Value): Value {
    Get(Get(Some(item), "data"), "platform").GetOr(Null)
  }

  /** The summary row of a recent event; a missing username or platform
      shows as 'Unknown', and a missing event or timestamp is dropped. */
  function Summary(item: Value): (s: map<string, Value>)
    ensures "username" in s && "platform" in s
    ensures s["username"] == Or(Get(Get(Some(item), "userInfo"), "username"), Str("Unknown"))
    ensures s["platform"] == Or(Get(Get(Some(item), "data"), "platform"), Str("Unknown"))
    ensures Truthy(s["username"]) && Truthy(s["platform"])
  {
    Defined("event", Get(Some(item), "event")) +
    Defined("timestamp", Get(Some(item), "timestamp")) +
    map[
      "username" := Or(Get(Get(Some(item), "userInfo"), "username"), Str("Unknown")),
      "platform" := Or(Get(Get(Some(item), "data"), "platform"), Str("Unknown"))
    ]
  }

  datatype Stats = Stats(
    totalEvents: nat, todayEvents: nat, uniqueUsers: nat,
    platforms: seq<Value>, recentEvents: seq<map<string, Value>>,
    lastUpdated: string, isLive: bool)

  /** The number of distinct truthy user names among the items. */
  function UniqueUsers(items: seq<Value>): nat {
    DistinctCount(Filter(Map(items, UsernameOf), Truthy))
  }

  /** The summaries of the last ten items, newest first. */
  function Recent(items: seq<Value>): seq<map<string, Value>> {
    Map(Reverse(LastN(items, 10)), Summary)
  }

  /** `getStats` on the stored content. It throws when the content is not an
      array (there is no `filter`) or when an item is `null` (property access
      on `null`). `onToday` stands for comparing a timestamp's date with
      today's.  A specification helper; `StatsCounts`, `StatsPlatforms`,
      `StatsRecent`, `UniqueUsersCountsNames` and `ElevenHundredFifty` state
      its properties. */
  function StatsOf(file: Option<Doc>, onToday: Option<Value> -> bool, nowIso: string): Attempt<Stats> {
    var data := Loaded(file);
    if !data.Arr? || Null in data.items then Threw
    else
      var items := data.items;
      Returned(Stats(
        |items|,
        Count(items, item => onToday(Get(Some(item), "timestamp"))),
        UniqueUsers(items),
        Dedup(Filter(Map(items, PlatformOf), Truthy)),
        Recent(items),
        nowIso,
        true))
  }

  /** The counts: the total is the stored length, and neither the events of
      today nor the distinct users can exceed it. */
  lemma StatsCounts(items: seq<Value>, onToday: Option<Value> -> bool, nowIso: string)
    requires Null !in items
    ensures var r := StatsOf(Some(JsonDoc(Arr(items))), onToday, nowIso);
      && r.Returned?
      && r.value.totalEvents == |items|
      && r.value.todayEvents <= |items| && r.value.uniqueUsers <= |items|
  {
    var names := Filter(Map(items, UsernameOf), Truthy);
    DedupBound(names);
  }

  /** The platforms are distinct truthy platform values found in the stored
      items, and every truthy platform value is listed. */
  lemma StatsPlatforms(items: seq<Value>, onToday: Option<Value> -> bool, nowIso: string)
    requires Null !in items
    ensures var ps := StatsOf(Some(JsonDoc(Arr(items))), onToday, nowIso).value.platforms;
      && NoDup(ps)
      && (forall i :: 0 <= i < |ps| ==> Truthy(ps[i]) && ps[i] in Map(items, PlatformOf))
      && (forall i :: 0 <= i < |items| && Truthy(PlatformOf(items[i])) ==> PlatformOf(items[i]) in ps)
  {
    var all := Map(items, PlatformOf);
    var truthy := Filter(all, Truthy);
    assert forall i :: 0 <= i < |items| && Truthy(PlatformOf(items[i])) ==> all[i] in truthy;
  }

  /** The recent events are the last ten items (or all of them when there
      are fewer), newest first. */
  lemma StatsRecent(items: seq<Value>, onToday: Option<Value> -> bool, nowIso: string)
    requires Null !in items
    ensures var rs := StatsOf(Some(JsonDoc(Arr(items))), onToday, nowIso).value.recentEvents;
      && |rs| == (if |items| < 10 then |items| else 10)
      && (forall i :: 0 <= i < |rs| ==> rs[i] == Summary(items[|items| - 1 - i]))
  {
    assert StatsOf(Some(JsonDoc(Arr(items))), onToday, nowIso).value.recentEvents == Recent(items);
    RecentNewestFirst(items);
  }

  lemma RecentNewestFirst(items: seq<Value>)
    ensures |Recent(items)| == (if |items| < 10 then |items| else 10)
    ensures forall i :: 0 <= i < |Recent(items)| ==> Recent(items)[i] == Summary(items[|items| - 1 - i])
  {
    var last := LastN(items, 10);
    var rev := Reverse(last);
    var r := Recent(items);
    assert |r| == |last|;
    forall i | 0 <= i < |r|
      ensures r[i] == Summary(items[|items| - 1 - i])
    {
      var j := |last| - 1 - i;
      assert rev[i] == last[j];
      assert last[j] == items[|items| - |last| + j];
    }
  }

  /** `new Set(data.map(e => e.userInfo?.username).filter(Boolean)).size`:
      the number of distinct truthy user names among the items, whatever
      their order or repetition. */
  lemma UniqueUsersAreDistinctNames(items: seq<Value>)
    ensures UniqueUsers(items) == |set i | i in items && Truthy(UsernameOf(i)) :: UsernameOf(i)|
  {
    var names := Filter(Map(items, UsernameOf), Truthy);
    MapFilterSet(items, UsernameOf, Truthy);
    var distinct := set x | x in names;
    assert distinct == (set i | i in items && Truthy(UsernameOf(i)) :: UsernameOf(i));
    assert UniqueUsers(items) == |distinct|;
  }

  /** The statistics of a stored array count each truthy user name once. */
  lemma UniqueUsersCountsNames(items: seq<Value>, onToday: Option<Value> -> bool, nowIso: string)
    requires Null !in items
    ensures var r := StatsOf(Some(JsonDoc(Arr(items))), onToday, nowIso);
      && r.Returned?
      && r.value.uniqueUsers == |set i | i in items && Truthy(UsernameOf(i)) :: UsernameOf(i)|
  {
    UniqueUsersAreDistinctNames(items);
    assert StatsOf(Some(JsonDoc(Arr(items))), onToday, nowIso).value.uniqueUsers == UniqueUsers(items);
  }

  // ---------------------------------------------------------------------
  // The store

  class AnalyticsStorage {
    /** The content of /tmp/analytics-data.json. */
    var file: Option<Doc>

    constructor (file: Option<Doc>)
      ensures this.file == file
    {
      this.file := file;
    }

    function LoadData(): (v: Value)
      reads this
      ensures v == Loaded(file)
    {
      Loaded(file)
    }

    /** `saveData`: writes the last 1000 items, in order; a failed write
        leaves the file as it was and reports false. */
    method SaveData(data: seq<Value>, writeOk: bool) returns (saved: bool)
      modifies this`file
      ensures saved == writeOk
      ensures writeOk ==> file == Some(JsonDoc(Arr(LastN(data, Cap))))
      ensures !writeOk ==> file == old(file)
    {
      var limited := if |data| <= Cap then data else data[|data| - Cap..];
      if !writeOk {
        return false;
      }
      file := Some(JsonDoc(Arr(limited)));
      saved := true;
    }

    /** `addEvent`: appends one record after the stored ones.  When the file
        holds JSON that is not an array, `push` throws and nothing is
        written. */
    method AddEvent(eventData: map<string, Value>, id: Value, nowIso: string, writeOk: bool)
      returns (r: Attempt<bool>)
      modifies this`file
      ensures !Loaded(old(file)).Arr? ==> r.Threw? && file == old(file)
      ensures Loaded(old(file)).Arr? ==> r == Returned(writeOk)
      ensures Loaded(old(file)).Arr? && writeOk ==>
        file == Some(JsonDoc(Arr(LastN(Loaded(old(file)).items + [Record(eventData, id, nowIso)], Cap))))
      ensures !writeOk ==> file == old(file)
    {
      var data := LoadData();
      if !data.Arr? {
        return Threw;
      }
      var items := data.items + [Record(eventData, id, nowIso)];
      var saved := SaveData(items, writeOk);
      r := Returned(saved);
    }

    /** `getStats`: a read of the stored content; it writes nothing. */
    function GetStats(onToday: Option<Value> -> bool, nowIso: string): Attempt<Stats>
      reads this
    {
      StatsOf(file, onToday, nowIso)
    }
  }

  /** However many records are appended one `addEvent` at a time, the store
      holds exactly the last 1000 of all of them, in order; in particular it
      never holds more than 1000. */
  lemma StoreKeepsNewest(stored: seq<Value>, records: seq<Value>)
    requires |stored| <= Cap
    ensures AppendEach(stored, records, Cap) == LastN(stored + records, Cap)
    ensures |AppendEach(stored, records, Cap)| <= Cap
  {
    AppendEachKeepsLast(stored, records, Cap);
  }

  /** 1050 appends to an empty store leave the newest 1000, so the total
      reported by the statistics is 1000. */
  lemma ElevenHundredFifty(records: seq<Value>, onToday: Option<Value> -> bool, nowIso: string)
    requires |records| == 1050 && Null !in records
    ensures AppendEach([], records, Cap) == records[50..]
    ensures StatsOf(Some(JsonDoc(Arr(records[50..]))), onToday, nowIso).value.totalEvents == 1000
  {
    KeptFromEmpty(records);
    NewestThousandTotal(records, onToday, nowIso);
  }

  lemma NewestThousandTotal(records: seq<Value>, onToday: Option<Value> -> bool, nowIso: string)
    requires |records| == 1050 && Null !in records
    ensures StatsOf(Some(JsonDoc(Arr(records[50..]))), onToday, nowIso).value.totalEvents == 1000
  {
    var kept := records[50..];
    assert Null !in kept;
    StatsCounts(kept, onToday, nowIso);
  }

  lemma KeptFromEmpty(records: seq<Value>)
    requires |records| >= Cap
    ensures AppendEach([], records, Cap) == records[|records| - Cap..]
  {
    KeepsLastFromEmpty(records, Cap);
    LastNOfLonger(records, Cap);
  }

  lemma KeepsLastFromEmpty<T>(xs: seq<T>, n: nat)
    ensures AppendEach([], xs, n) == LastN([] + xs, n)
  {
    var empty: seq<T> := [];
    AppendEachKeepsLast(empty, xs, n);
  }

  lemma LastNOfLonger<T>(xs: seq<T>, n: nat)
    requires |xs| >= n
    ensures LastN([] + xs, n) == xs[|xs| - n..]
  {
    var empty: seq<T> := [];
    assert empty + xs == xs;
  }
}
