# testgenie telemetry and installer rules in Dafny

This project models the core of testgenie, a command-line installer for
GitHub Copilot chatmodes, together with the telemetry pipeline around it.
The model covers the following pieces.

- **Emitter with fallback chain** (`SimpleAnalytics`). It picks a GitHub
  token, classifies the install method and builds the event id and
  payload. It then tries three transports in a fixed order: a GitHub issue
  (only with a token), a repository dispatch, and a local list capped at 50
  entries.
- **Consent-gated emitter** (`ConsentAnalytics`). It covers the consent
  gate, the saved config, the session id that is drawn once and reused,
  and the payload (user information, domain, machine id, system fields).
- **Bounded event stores** (`EventStorage`, `DataApi`). A file store keeps
  the newest 1000 records and derives statistics from them. An in-memory
  buffer appends batches and trims to 1000.
- **Database-backed collector** (`SupabaseAnalytics`). It maps an event to
  a row and retries once when the table is missing. Its statistics include
  a paged, newest-first window. It falls back to a demo result.
- **HTTP endpoints** of the serverless deployment:
  - paginated statistics (`StatsApi`), including JavaScript's `parseInt` as
    the page and limit parameters use it;
  - forwarding to GitHub (`AnalyticsApi`).
- **Self-hosted dashboard** (`Dashboard`). It covers ingestion (one row
  and one broadcast) and the SQL aggregations of the four read endpoints,
  stated as functions over the table's rows.
- **Installer rules**:
  - the `package.json` merge (`ProjectPackage`);
  - the MCP server merge and the `force` rule (`McpConfig`);
  - VS Code profile resolution (`VSCodeProfile`);
  - chatmode selection and copy-unless-present (`Installer`);
  - the chatmode manager's directory layout, listing filter, project check
    and settings merge (`Chatmodes`).

Shared modules model JavaScript values and their operations (`Json`), a
file system as a map from paths to documents plus a set of directories
(`Files`), environment lookup (`Platform`), sequence utilities (`Seqs`),
text utilities (`Text`) and HTTP replies (`Http`).

Every external effect is a parameter, and the model states what the code
does with it. This covers:

- transports and store calls, taken as outcomes;
- the clock, taken as `now` values;
- random bytes;
- the SHA-256 digest, as a function that yields 32 bytes;
- prompt answers;
- `git` output;
- the outcome of `npm install`;
- directory listings.

Code that updates state in place is modelled as a class whose methods
state the new state:

- the two emitters;
- the file store;
- the in-memory buffer;
- the collector's table;
- the dashboard table;
- the file system.

Each such method's `ensures` ties the new state to a specification
function, and lemmas state the properties of those functions.

## Model

| member | source | states |
|---|---|---|
| `SimpleAnalytics.GitHubToken` | lib/simple-analytics.js:12-18 | The token is the first of GITHUB_TOKEN, GH_TOKEN, TESTGENIE_GITHUB_TOKEN that is set and non-empty; there is none exactly when all three are unset or empty |
| `SimpleAnalytics.DetectInstallMethod` | lib/simple-analytics.js:213-235 | First match in the order npx, global, local, unknown: each result holds exactly when its own signal holds and no earlier signal does |
| `SimpleAnalytics.NpxVariableWins` | lib/simple-analytics.js:218-221 | A non-empty NPX_CLI_JS classifies the run as npx, whatever else holds |
| `SimpleAnalytics.BinDirectoryIsGlobal` | lib/simple-analytics.js:213-235 | A script path under `node_modules/.bin` satisfies the local test too, but is classified global because the global test comes first |
| `SimpleAnalytics.EventIdShape` | lib/simple-analytics.js:237-241 | The id is `action-<millis>-<8 hex>`: it starts with `action-`, the middle digits read back as the clock value and the 8 hex characters decode to the 4 random bytes |
| `SimpleAnalytics.Payload` | lib/simple-analytics.js:28-38 | Every caller field survives unchanged, because the data is spread last; the seven default fields are present and take their default only where the caller gave none |
| `SimpleAnalytics.IssueLabels` | lib/simple-analytics.js:56-58 | Four labels: `analytics`, then the payload's action and platform (`null` when absent), then the install method when truthy, else `unknown` |
| `SimpleAnalytics.IssueTitleDateOnly` | lib/simple-analytics.js:56-57 | The title is `[Analytics] <action> - ` followed by a prefix of the ISO time that holds no `T`, i.e. the date part only |
| `SimpleAnalytics.ChainOrder` | lib/simple-analytics.js:49-145 | An issue is attempted exactly when a token exists. A dispatch is attempted exactly when the issue was not attempted or failed, and it carries the token, the payload and the event type `analytics_data`. At most two requests are made. The local list is used exactly when neither transport succeeded |
| `SimpleAnalytics.LocalAppendBounded` | lib/simple-analytics.js:122-144 | After a local append, the file holds the last 50 of the old list (an unreadable or missing file counts as empty) followed by the entry; the entry is last and the length is at most 50 |
| `SimpleAnalytics.LocalKeepsNewest` | lib/simple-analytics.js:134-138 | Successive local appends keep exactly the last 50 of everything appended, in order |
| `SimpleAnalytics.Emitter.constructor` | lib/simple-analytics.js:5-10 | A new emitter is enabled, holds the token chosen from the environment, and has made no requests |
| `SimpleAnalytics.Emitter.SendAnalytics` | lib/simple-analytics.js:49-145 | The delivery is the chain's outcome and the requests made are the chain's attempts, with the issue title and labels. The local file changes only when the chain reaches the local step. Nothing throws |
| `SimpleAnalytics.Emitter.Track` | lib/simple-analytics.js:20-47 | When disabled, nothing is sent or written. Otherwise it sends the payload with its generated event id through the chain, as `SendAnalytics` does |
| `SimpleAnalytics.HelpersTagAction` | lib/simple-analytics.js:243-273 | Each of the five helpers tags its event with its own action name unless the caller's data names one, and each keeps every caller field unchanged (so a caller's `action` wins); `trackNpxUsage` defaults the command to `npx testgenie-cli`; `trackInstallError` carries the error's message, and no `error` key when the message is undefined |
| `ConsentAnalytics.ConfigOf` | lib/analytics.js:80-89 | A missing or unparsable config file reads as `{}`; otherwise the stored JSON is returned |
| `ConsentAnalytics.InitializeGate` | lib/analytics.js:42-78 | The user is prompted exactly when no consent is stored. A stored consent becomes `enabled` and is returned. A read error or an aborted prompt returns false and leaves `enabled` and the file as they were. An answer becomes `enabled` and is returned |
| `ConsentAnalytics.ConsentPersists` | lib/analytics.js:58-78 | After a saved answer, a later initialization uses the saved value without prompting again |
| `ConsentAnalytics.GitEmail` | lib/analytics.js:100-108 | Missing or blank `git` output gives `unknown`; otherwise the result is the trimmed output, which is never empty and has no white space at either end (`Text.Trim` removes only white space, and only an all-white-space string trims to empty) |
| `ConsentAnalytics.Username` | lib/analytics.js:120 | USERNAME, else USER, else `unknown` (an empty variable falls through) |
| `ConsentAnalytics.Domain` | lib/analytics.js:123 | A hostname without a dot gives `unknown`; otherwise the hostname is its first label, a dot, then the domain |
| `ConsentAnalytics.DomainOfQualifiedHost` | lib/analytics.js:123 | The domain of `first.rest` is `rest`, dots included |
| `ConsentAnalytics.AfterFirst` | lib/analytics.js:123 | Dropping the first label of `first.rest` leaves `rest` |
| `ConsentAnalytics.MachineId` | lib/analytics.js:169-178 | The machine id is 16 hex characters |
| `ConsentAnalytics.MachineIdIsDigestPrefix` | lib/analytics.js:169-178 | The machine id decodes to the first 8 bytes of the fingerprint's SHA-256 digest, so it depends only on hostname, platform, architecture and CPU count |
| `ConsentAnalytics.EventData` | lib/analytics.js:125-133 | The data holds the caller's keys plus the six system keys. The system fields override caller fields of the same name, and other caller fields are kept |
| `ConsentAnalytics.UserInfo` | lib/analytics.js:119-124 | Exactly the four keys; the hostname is the host's, and the other three are non-empty strings |
| `ConsentAnalytics.SessionAfter` | lib/analytics.js:162-167 | An existing session id is kept. Otherwise the new id is the 32-character hex of the 16 random bytes |
| `ConsentAnalytics.Analytics.constructor` | lib/analytics.js:9-14 | A new instance is disabled, has no session id and has posted nothing |
| `ConsentAnalytics.Analytics.GetConfig` | lib/analytics.js:80-89 | `getConfig` reads the configuration as `ConfigOf` does |
| `ConsentAnalytics.Analytics.RequestConsent` | lib/analytics.js:58-78 | An answer becomes `enabled` and is returned, and the same value is saved to the config file; an aborted prompt throws and changes nothing |
| `ConsentAnalytics.Analytics.Initialize` | lib/analytics.js:42-56 | `enabled`, the result and the config file are those of the consent gate |
| `ConsentAnalytics.Analytics.GetSessionId` | lib/analytics.js:162-167 | The id returned is the memoised one, and it is stored |
| `ConsentAnalytics.Analytics.Track` | lib/analytics.js:110-160 | While disabled, nothing is posted and the session id is untouched. Otherwise exactly one payload is posted, with the session id |
| `ConsentAnalytics.SessionIdStable` | lib/analytics.js:162-167 | Every call after the first returns the same session id, whatever bytes it is given |
| `ConsentAnalytics.ChatmodeCount` | lib/analytics.js:194 | The number of chatmodes is the array's length, and 0 when the option is absent |
| `ConsentAnalytics.InstallStartFlags` | lib/analytics.js:181-188 | The install-start event has exactly `type`, `skipDeps`, `skipMcp` and `force`; each flag is the caller's `noDeps`, `noMcp` or `force` when truthy, and false otherwise |
| `ConsentAnalytics.InstallHelperDefaults` | lib/analytics.js:181-210 | Defaults of the helpers:<br>- `type` falls back to `interactive`;<br>- the flags as `ConsentAnalytics.InstallStartFlags` states them;<br>- `chatmodesInstalled` falls back to 0;<br>- `duration` is present only when given;<br>- an error without a message leaves only `type`;<br>- `success` defaults to true |
| `EventStorage.Loaded` | vercel-analytics/lib/storage.js:9-19 | A missing or unparsable file loads as `[]` |
| `EventStorage.Record` | vercel-analytics/lib/storage.js:33-38 | The record holds the event's fields plus `id` and `received_at`, and those two are set by the store |
| `EventStorage.Summary` | vercel-analytics/lib/storage.js:59-67 | The summary shows the user name and platform, each `Unknown` when missing or falsy, so both are always truthy |
| `EventStorage.StatsCounts` | vercel-analytics/lib/storage.js:43-78 | The statistics of a stored array: the total is its length, and neither today's events nor distinct users exceed it |
| `EventStorage.StatsPlatforms` | vercel-analytics/lib/storage.js:55-57 | `platforms` is exactly the distinct truthy platforms of the items, with no repeats |
| `EventStorage.StatsRecent` | vercel-analytics/lib/storage.js:59-67 | `recentEvents` holds the summaries of the last ten items, newest first |
| `EventStorage.RecentNewestFirst` | vercel-analytics/lib/storage.js:59-67 | The reversed last ten items: position `i` holds the summary of the `i`-th newest item |
| `EventStorage.UniqueUsersCountsNames` | vercel-analytics/lib/storage.js:51-53 | For every stored array without `null` items, `uniqueUsers` is the number of distinct truthy `userInfo.username` values among the items |
| `EventStorage.UniqueUsersAreDistinctNames` | vercel-analytics/lib/storage.js:51-53 | The unique-user count of any item list is the size of the set of truthy user names in it |
| `EventStorage.AnalyticsStorage.constructor` | vercel-analytics/lib/storage.js:6-8 | The store starts on the given content of its data file |
| `EventStorage.AnalyticsStorage.LoadData` | vercel-analytics/lib/storage.js:9-19 | `loadData` reads the file as `Loaded` does |
| `EventStorage.AnalyticsStorage.SaveData` | vercel-analytics/lib/storage.js:21-31 | A successful write stores exactly the last `min(1000, n)` items, in order, and returns true; a failed write changes nothing and returns false |
| `EventStorage.AnalyticsStorage.AddEvent` | vercel-analytics/lib/storage.js:33-41 | The new record is appended after the stored ones and the result is trimmed to the last 1000. Non-array content throws and nothing is written |
| `EventStorage.StoreKeepsNewest` | vercel-analytics/lib/storage.js:24 | Records appended one at a time leave exactly the last 1000 of all of them, in order, and never more than 1000 |
| `EventStorage.ElevenHundredFifty` | vercel-analytics/lib/storage.js:24 | 1050 records appended to an empty store leave the newest 1000, and the total reported is 1000 |
| `EventStorage.KeptFromEmpty` | vercel-analytics/lib/storage.js:24 | Appending at least 1000 records to an empty store keeps their last 1000 |
| `DataApi.PostAppendsBatch` | vercel-analytics/api/data.js:32-38 | After a POST, a batch of at most 1000 events ends the buffer, in order, and the buffer holds at most 1000 |
| `DataApi.PostWithinCap` | vercel-analytics/api/data.js:32-38 | While under the cap, a POST appends the batch with nothing dropped |
| `DataApi.AfterArrayPost` | vercel-analytics/api/data.js:32-38 | Posting an array leaves the last 1000 of the old buffer followed by the batch |
| `DataApi.BatchesKeepNewest` | vercel-analytics/api/data.js:32-38 | Successive POSTs leave exactly the last 1000 of all events ever posted, in order |
| `DataApi.DataEndpoint.constructor` | vercel-analytics/api/data.js:28-30 | The buffer starts uninitialised |
| `DataApi.DataEndpoint.Handle` | vercel-analytics/api/data.js:10-48 | The handler by method:<br>- OPTIONS answers 200 with no body;<br>- GET returns the buffer and its length and leaves it as it was;<br>- a POST with a body replaces the buffer by the trimmed append and reports the new length;<br>- a POST with a missing or `null` body fails with 500 before touching the buffer;<br>- other methods get 405 and the buffer is unchanged |
| `DataApi.NonArrayPostKeepsBuffer` | vercel-analytics/api/data.js:32-38 | A POST whose `events` is missing or not an array leaves the buffer contents unchanged (an absent buffer becomes empty) |
| `SupabaseAnalytics.ColumnsOf` | vercel-analytics/lib/supabase-analytics.js:49-64 | A missing `userInfo` or `data` leaves its columns NULL instead of failing, and a non-object event leaves every column NULL |
| `SupabaseAnalytics.AddProtocol` | vercel-analytics/lib/supabase-analytics.js:39-110 | The insert protocol:<br>- unconfigured: no call and false;<br>- at most three calls;<br>- a create-table call exactly when the first insert fails because the table is missing;<br>- true exactly when one row was added, holding the event's columns;<br>- any other first error: false with no retry |
| `SupabaseAnalytics.RetryFailureGivesFalse` | vercel-analytics/lib/supabase-analytics.js:69-97 | On a missing table, the calls are: insert, create table, one retry. A failed retry returns false and adds nothing |
| `SupabaseAnalytics.CreateTable` | vercel-analytics/lib/supabase-analytics.js:20-37 | Creating the table succeeds exactly when the store is configured and the call succeeds or reports that the table already exists |
| `SupabaseAnalytics.Collector.constructor` | vercel-analytics/lib/supabase-analytics.js:5-13 | The collector starts on the given table and configuration, with no calls made |
| `SupabaseAnalytics.Collector.AddEvent` | vercel-analytics/lib/supabase-analytics.js:39-110 | The result, the calls made and the rows added are those of the insert protocol |
| `SupabaseAnalytics.DemoStats` | vercel-analytics/lib/supabase-analytics.js:187-204 | The demo result: zero counts, no platforms, data source `demo`, a message, and one sample event |
| `SupabaseAnalytics.TodayWindowIsTheDay` | vercel-analytics/lib/supabase-analytics.js:123-129 | The intended window, midnight up to the next midnight, holds exactly the times on the current UTC day |
| `SupabaseAnalytics.LastMillisecondMissed` | vercel-analytics/lib/supabase-analytics.js:127-128 | A row created in the day's last millisecond is on that day, but the window as written does not count it, while the corrected one does |
| `SupabaseAnalytics.Project` | vercel-analytics/lib/supabase-analytics.js:154-169 | The event name and timestamp are the row's columns. Each of the ten other text fields keeps a truthy column value and is `Unknown` when the column is NULL or empty, so all ten are truthy. `eventData` defaults to `{}` and the creation time is kept |
| `SupabaseAnalytics.RecentRows` | vercel-analytics/lib/supabase-analytics.js:148-152 | A negative offset or a limit below 1 gives no rows |
| `SupabaseAnalytics.RecentWindow` | vercel-analytics/lib/supabase-analytics.js:148-152 | The recent rows are those ranked `offset` to `offset+limit-1` by descending creation time. There are at most `limit`, exactly `limit` when enough rows exist, newest first, all drawn from the table |
| `SupabaseAnalytics.PagesTile` | vercel-analytics/lib/supabase-analytics.js:148-152 | Two consecutive pages are consecutive slices of the sorted table: nothing is skipped or repeated |
| `SupabaseAnalytics.DistinctPlatforms` | vercel-analytics/lib/supabase-analytics.js:140-145 | Each non-NULL platform value of the table appears exactly once, and nothing else appears |
| `SupabaseAnalytics.GetStats` | vercel-analytics/lib/supabase-analytics.js:112-185 | Unconfigured or throwing: the demo result. Otherwise:<br>- a failed count query becomes 0;<br>- the total is the row count;<br>- today's count is over the corrected day window;<br>- the unique users are the number of distinct non-NULL user names, or 0 when that query failed;<br>- the platforms are the distinct non-NULL platforms, or none when that query failed;<br>- the recent events are the projected rows of the requested page, newest first, or none when that query failed;<br>- at most `limit` recent events |
| `SupabaseAnalytics.DistinctUsers` | vercel-analytics/lib/supabase-analytics.js:132-137 | The users query counts each distinct non-NULL user name once, an empty name included |
| `StatsApi.RadixDigitValue` | vercel-analytics/api/stats.js:17-18 | A digit's value is below its radix |
| `StatsApi.DigitRun` | vercel-analytics/api/stats.js:17-18 | The digit run that `parseInt` reads is the longest prefix of digits |
| `StatsApi.RunValueIsDecimal` | vercel-analytics/api/stats.js:17-18 | A run of decimal digits has the value of the decimal number it spells |
| `StatsApi.DigitRunOfDigits` | vercel-analytics/api/stats.js:17-18 | Digits followed by a non-digit: the run is exactly those digits |
| `StatsApi.MagnitudeOfDecimal` | vercel-analytics/api/stats.js:17-18 | A decimal numeral followed by anything other than a digit or `x` reads back as its number |
| `StatsApi.ParseIntOfDigitStart` | vercel-analytics/api/stats.js:17-18 | A string that starts with a digit parses to its magnitude |
| `StatsApi.ParseIntOfMinus` | vercel-analytics/api/stats.js:17-18 | A leading minus negates the magnitude |
| `StatsApi.ParseIntReadsDecimal` | vercel-analytics/api/stats.js:17-18 | `parseInt` of a numeral with trailing text, optionally negated, gives the numeral's value |
| `StatsApi.ParseIntNaN` | vercel-analytics/api/stats.js:17-18 | A string that starts with neither space, sign nor digit is NaN |
| `StatsApi.ParamOr` | vercel-analytics/api/stats.js:17-18 | A missing parameter, NaN or 0 gives the default. A non-zero parse gives the parsed number. The result is never 0 unless the default is |
| `StatsApi.Offset` | vercel-analytics/api/stats.js:19 | The page ends at `page * limit`, so the offset is `(page - 1) * limit`, and it is non-negative for positive page and limit |
| `StatsApi.Paginate` | vercel-analytics/api/stats.js:25-30 | The pagination echoes page and limit. `hasNextPage` holds iff the returned length equals the limit, and `hasPrevPage` iff page > 1 |
| `StatsApi.Handle` | vercel-analytics/api/stats.js:8-43 | OPTIONS gets 200 with no body; methods other than GET get 405; GET serves the page computed from the parsed page and limit |
| `StatsApi.GetPage` | vercel-analytics/api/stats.js:17-38 | A throwing stats call gives 500. Otherwise the stats are returned with the pagination of the events returned |
| `StatsApi.GetNeverFails` | vercel-analytics/api/stats.js:14-38 | With the database collector, a GET always answers 200, since that collector falls back to demo data instead of throwing |
| `StatsApi.CollectorPage` | vercel-analytics/api/stats.js:22 | The configured collector returns the window of the rows sorted newest first, at the given offset and limit, projected |
| `StatsApi.FullWindow` | vercel-analytics/api/stats.js:28 | A window is full exactly when the sequence reaches its end |
| `StatsApi.PageContents` | vercel-analytics/api/stats.js:14-32 | A GET's events are page `page` of the rows sorted newest first. `hasNextPage` holds iff `page * limit` rows exist, and `hasPrevPage` iff page > 1 |
| `StatsApi.FullPage` | vercel-analytics/api/stats.js:19-28 | The collector's page at the computed offset is full exactly when `page * limit` rows exist |
| `StatsApi.ParamOfDecimal` | vercel-analytics/api/stats.js:17-18 | A positive decimal parameter is taken as given |
| `StatsApi.SmallParams` | vercel-analytics/api/stats.js:17-18 | `"2"`, `"3"` and `"10"` parse to 2, 3 and 10 |
| `StatsApi.SecondPageOfTwentyFive` | vercel-analytics/api/stats.js:17-30 | With 25 rows, page 2 of 10 holds 10 events and has both a next and a previous page |
| `StatsApi.ThirdPageOfTwentyFive` | vercel-analytics/api/stats.js:17-30 | With 25 rows, page 3 of 10 holds 5 events, has no next page and has a previous page |
| `AnalyticsApi.DispatchOf` | vercel-analytics/api/analytics.js:26-42 | The dispatch goes to the repository's `dispatches` URL, carrying the token, with event type `testgenie_analytics` and the body as client payload |
| `AnalyticsApi.Handle` | vercel-analytics/api/analytics.js:5-57 | The checks in order:<br>- OPTIONS: 200;<br>- other non-POST methods: 405;<br>- a missing body or falsy action: 400;<br>- no token: 500.<br>A dispatch happens exactly when all checks pass. Acceptance gives 200 echoing the action; a refusal or an exception gives 500 |
| `AnalyticsApi.TrackedExactly` | vercel-analytics/api/analytics.js:5-57 | A 200 with a body happens exactly for a POST with an action, a token and an accepted dispatch, and it echoes the posted action |
| `AnalyticsApi.MethodBeforeBody` | vercel-analytics/api/analytics.js:10-17 | The method is checked before the body: a GET without a body is 405, and nothing is dispatched |
| `AnalyticsApi.RepoDefault` | vercel-analytics/api/analytics.js:20 | An unset or empty GITHUB_REPO dispatches to the default repository |
| `Dashboard.CountEvent` | analytics-dashboard/server.js:102 | An event count never exceeds the number of rows |
| `Dashboard.RowOf` | analytics-dashboard/server.js:55-77 | A row exists exactly when both `userInfo` and `data` are present and not null. It takes the next id and the current time, and stores the data object |
| `Dashboard.Broadcast` | analytics-dashboard/server.js:82-88 | The broadcast is an object holding only the five listed fields; the value each of them holds is stated by `Dashboard.BroadcastCarries` (next row) |
| `Dashboard.BroadcastCarries` | analytics-dashboard/server.js:82-88 | Each of the five fields holds the body's value when the body defines it (`event` and `timestamp` at the top level, the others under `userInfo`), and is absent when it is `undefined` |
| `Dashboard.ColumnMapping` | analytics-dashboard/server.js:55-77 | For every body with `userInfo` and `data` present and not null, each top-level, `userInfo` and `data` field lands in its own column, a missing one is NULL, and `eventData` is the data object. The row is insertable exactly when `event`, `timestamp` and `sessionId` are present and not null |
| `Dashboard.Db.constructor` | analytics-dashboard/server.js:26-48 | The table starts empty, with id 1 next and no broadcasts |
| `Dashboard.Db.Ingest` | analytics-dashboard/server.js:53-95 | A body without `userInfo` or `data` answers 500 and changes nothing. Otherwise it emits exactly one broadcast and answers `success: true`; the row is added with the next id when its NOT NULL columns are present. Ids stay increasing |
| `Dashboard.TwoIngests` | analytics-dashboard/server.js:53-95 | Two complete ingests add two rows with ids 1 and 2 and two broadcasts, in order |
| `Dashboard.RoundedPercentIsNearest` | analytics-dashboard/server.js:116-124 | The integer success rate is the nearest whole number to `100 s / d`, with halves rounded up, and it is at most 100 when `s <= d` |
| `Dashboard.SuccessRateBounded` | analytics-dashboard/server.js:116-124 | The success rate is at most 100, and 0 when there are no successes (including when no install finished) |
| `Dashboard.SevenOfTen` | analytics-dashboard/server.js:116-124 | Seven successes and three errors give 70 |
| `Dashboard.Tallies` | analytics-dashboard/server.js:127-131 | One count per event name, in order, each the number of rows carrying it |
| `Dashboard.RecentActivityCounts` | analytics-dashboard/server.js:126-136 | Each event name of the last day appears once, with the number of that day's rows carrying it, which is at least 1 |
| `Dashboard.RecentActivityCovers` | analytics-dashboard/server.js:126-136 | Every row of the last day is counted under its event name |
| `Dashboard.UniqueUsers` | analytics-dashboard/server.js:109 | The count is the number of distinct non-NULL user names |
| `Dashboard.Stats` | analytics-dashboard/server.js:98-143 | A query error answers with the message of the first query that failed (total, users, rate, activity in that order), and only an error does. Otherwise the answer holds the `install_success` count (at most the row count), the number of distinct non-NULL user names, the success rate (at most 100) and the last day's per-event activity |
| `Dashboard.RecentIsNewestInstalls` | analytics-dashboard/server.js:146-159 | At most 50 rows, all install starts or successes from the table, newest first. None left out is newer than one kept, and there are 50 whenever the table has that many |
| `Dashboard.Dates` | analytics-dashboard/server.js:166 | Each row's date is its day number |
| `Dashboard.PerDay` | analytics-dashboard/server.js:164-172 | One count per day, each the number of rows on that day |
| `Dashboard.UsageOverTimeMeaning` | analytics-dashboard/server.js:163-178 | Dates strictly ascend and lie within the last 30 days. Each date carries its number of successful installs, at least one |
| `Dashboard.UsageOverTimeCovers` | analytics-dashboard/server.js:163-178 | Every successful install of the last 30 days is counted on its date |
| `Dashboard.Latest` | analytics-dashboard/server.js:188 | The group's latest row belongs to the group and is at least as recent as every other |
| `Dashboard.Rollup` | analytics-dashboard/server.js:184-192 | A group's line names its user name and hostname |
| `Dashboard.RollupDescribes` | analytics-dashboard/server.js:184-192 | A group's line counts its rows (at least one) and its `install_success` rows. Its last-seen time and e-mail are those of the group's latest row |
| `Dashboard.Rollups` | analytics-dashboard/server.js:184-192 | One line per key, in order |
| `Dashboard.UserKeys` | analytics-dashboard/server.js:192 | The groups are the distinct (user name, hostname) pairs, and every row falls in one |
| `Dashboard.Users` | analytics-dashboard/server.js:182-199 | The lines are a permutation of the group lines, one per distinct pair, ordered by last-seen time descending |
| `Dashboard.UsersDescribeGroups` | analytics-dashboard/server.js:182-199 | Every line of `/api/users` describes its group: `totalEvents` is the group's size, `successfulInstalls` its `install_success` count, and `lastSeen` and `userEmail` come from the group's latest row |
| `Dashboard.RollupsDescribe` | analytics-dashboard/server.js:184-192 | Every line built from keys of the table describes its group: size, `install_success` count, and the latest row's `lastSeen` and `userEmail` |
| `Dashboard.UsersCoverRows` | analytics-dashboard/server.js:182-199 | Every row's (user name, hostname) pair has a line |
| `Dashboard.RecentEndpoint` | analytics-dashboard/server.js:146-159 | 500 with the database's message exactly on a query error; otherwise the `Recent` rows, at most 50 (their meaning is `Dashboard.RecentIsNewestInstalls`). Reading changes nothing |
| `Dashboard.UsageOverTimeEndpoint` | analytics-dashboard/server.js:163-178 | 500 with the database's message exactly on a query error; otherwise the `UsageOverTime` rows (their meaning is `Dashboard.UsageOverTimeMeaning`). Reading changes nothing |
| `Dashboard.UsersEndpoint` | analytics-dashboard/server.js:182-199 | 500 with the database's message exactly on a query error; otherwise the `Users` rows (their meaning is `Dashboard.UsersDescribeGroups`). Reading changes nothing |
| `ProjectPackage.MergedSection` | bin/cli.js:415-429 | A merged section's keys are the union of the package's and the template's |
| `ProjectPackage.MergedPackage` | bin/cli.js:415-429 | Merging throws exactly when the package or the template is `null`, and leaves a non-object package as it is |
| `ProjectPackage.PackageMerge` | bin/cli.js:415-429 | The three sections become existing ∪ template, with the template winning on a clash; every other top-level key is kept |
| `ProjectPackage.PackageMergeIdempotent` | bin/cli.js:415-429 | Merging the same template again changes nothing |
| `ProjectPackage.SectionRemerged` | bin/cli.js:415-429 | Re-merging an already merged section gives the same section |
| `ProjectPackage.FreshPackage` | bin/cli.js:398-429 | Without a `package.json`, the new one is named `Files.Basename` of the project path (the directory's own name, trailing separators ignored), has version `1.0.0`, and takes the template's three sections |
| `Files.BasenameIgnoresTrailingSlash` | bin/cli.js:406 | `path.basename` ignores a trailing separator: `p + "/"` has the same base name as `p` |
| `Files.BasenameOfPlainName` | bin/cli.js:406 | The base name of `name`, `dir/name` or either with a trailing `/` is `name` when `name` is a plain, non-empty file name |
| `ProjectPackage.NewPackageMerged` | bin/cli.js:404-429 | Merging a template into a new package keeps its name and version, and takes the template's three sections |
| `ProjectPackage.MergedIntoBare` | bin/cli.js:415-429 | A package without the three sections takes them from the template and keeps every key it had |
| `ProjectPackage.SectionFromTemplate` | bin/cli.js:415-429 | A section the package lacks is exactly the template's |
| `ProjectPackage.InstallProjectDependencies` | bin/cli.js:394-443 | The merged `package.json` is written, and nothing else is, so the directory then passes `validateProject`. The call succeeds iff `npm install` does. When reading throws, nothing is written |
| `McpConfig.TemplateSelection` | bin/cli.js:583-633 | The written configuration is merged from the first existing template among the source directory's `mcp.json`, its `templates/mcp.json` and the bundled one. With none of them, the Atlassian server is added. An unparsable first template makes the setup throw |
| `McpConfig.McpBase` | bin/cli.js:598-606 | With `force` or without an existing config the base is `{}`; otherwise it is the existing JSON |
| `McpConfig.MergedMcp` | bin/cli.js:609-646 | The merge throws exactly when the config or the template is `null`; a non-object config is kept; an object config gets `servers` |
| `McpConfig.MergedWithoutTemplate` | bin/cli.js:609-628 | Without a template, an object config gets `servers`, and a non-object config is kept |
| `McpConfig.MergedWithTemplate` | bin/cli.js:629-646 | With a template, an object config gets `servers`, and a non-object config is kept |
| `McpConfig.McpTemplateMerge` | bin/cli.js:629-646 | `servers` is existing ∪ template, with the template winning. `inputs` is replaced only when the template's is truthy. Every other key is kept |
| `McpConfig.WithTemplateFields` | bin/cli.js:629-646 | The merged fields are the config with `servers` replaced and, when the template's `inputs` is truthy, `inputs` replaced |
| `McpConfig.McpWithoutTemplate` | bin/cli.js:609-628 | Without a template, exactly the Atlassian server is added to the existing servers, and every other key is kept |
| `McpConfig.ForceDiscardsExisting` | bin/cli.js:598-606 | With `force`, the result does not depend on the existing configuration |
| `McpConfig.SetupMcpConfiguration` | bin/cli.js:578-656 | The profile directory is created and `mcp.json` in it is written with the merged configuration; when the merge throws, nothing is written |
| `VSCodeProfile.ProfilePathShape` | bin/cli.js:445-576 | The resolved path is the default user directory or a directory under `profiles/` |
| `VSCodeProfile.JoinStartsWith` | bin/cli.js:459 | A path joined under a directory starts with that directory and a slash |
| `VSCodeProfile.ProfileResolution` | bin/cli.js:453-575 | `default` gives the base path, and an existing named profile is used as is. With no profile and no `argv.json`, a profile found by the workspace scan is used. With no profile, no `argv.json`, no workspace storage and no profiles directory, the base path is used |
| `VSCodeProfile.NamedProfile` | bin/cli.js:469-477 | A profile read from a JSON file is always an existing directory under `profiles/`, and a file that cannot be read makes the step throw |
| `VSCodeProfile.ScanWorkspaces` | bin/cli.js:480-502 | A profile found by scanning the workspaces is always an existing directory under `profiles/` |
| `VSCodeProfile.ScanStopsAtFirstWorkspace` | bin/cli.js:485-500 | The scan stops at the first existing `workspace.json`: a named existing profile is returned, and an unparsable file ends the scan with nothing |
| `VSCodeProfile.BrokenArgvFallsBack` | bin/cli.js:468-478 | An unparsable `argv.json` falls through to the base path |
| `Installer.ChatmodeSelection` | bin/cli.js:661-676 | Exactly `test`, `bug` and `script` are known, each with its own chatmode file. `test` and `bug` share the instruction file, `script` has none, and the instruction file is not a chatmode |
| `Installer.CopyIfAllowed` | bin/cli.js:679-688 | The target is written with the source's content exactly when the source exists and the target is absent or `force` is set; nothing else changes |
| `Installer.CopyKeepsExisting` | bin/cli.js:682-688 | Without `force`, no existing file is overwritten |
| `Installer.InstallKeepsExisting` | bin/cli.js:658-703 | An install without `force` leaves every existing file as it was |
| `Installer.ForceInstallsTemplate` | bin/cli.js:658-703 | With `force`, the chatmode file is replaced by its template |
| `Installer.FileNamesHaveNoSlash` | bin/cli.js:661-676 | The installed file names are plain names, not paths |
| `Installer.JoinDistinct` | bin/cli.js:679-692 | Paths under two different directories differ |
| `Installer.InstallSpecificChatmode` | bin/cli.js:658-703 | An unknown type throws and changes nothing; otherwise the files become those of the two guarded copies |
| `Installer.MissingDirData` | bin/cli.js:62-66 | The error data carries the message, overridden by the command options it is spread with |
| `Installer.CheckTarget` | bin/cli.js:61-75 | A missing target directory exits with code 1 after an `install_error` event, creating no directory; otherwise the chatmodes and instructions directories are created |
| `Chatmodes.InstalledChatmodes` | lib/chatmode-manager.js:17-28 | `[]` when the directory is missing or unreadable; otherwise exactly the entries ending in `.chatmode.md` |
| `Chatmodes.InstalledChatmodesKeepOrder` | lib/chatmode-manager.js:17-28 | The filter keeps listing order, and filtering twice changes nothing |
| `Chatmodes.SettingsAfter` | lib/chatmode-manager.js:37-58 | Object settings (or a missing or corrupt file) give an object; `null` settings throw |
| `Chatmodes.SettingsSetsTwoKeys` | lib/chatmode-manager.js:43-57 | The two chat keys are set to `true` and `view`, and every other key keeps its value |
| `Chatmodes.CorruptSettingsStartFresh` | lib/chatmode-manager.js:44-51 | A corrupt settings file gives exactly the two keys |
| `Chatmodes.SettingsIdempotent` | lib/chatmode-manager.js:54-57 | A second run gives the same settings |
| `Chatmodes.ChatmodeManager.constructor` | lib/chatmode-manager.js:5-10 | The directories are `<project>/.github`, `<project>/.github/chatmodes` and `<project>/.github/instructions` |
| `Chatmodes.ChatmodeManager.EnsureDirectories` | lib/chatmode-manager.js:12-15 | Exactly the two directories are created |
| `Chatmodes.ChatmodeManager.GetInstalledChatmodes` | lib/chatmode-manager.js:17-28 | The loop returns what `InstalledChatmodes` specifies |
| `Chatmodes.PackageWriteMakesProject` | lib/chatmode-manager.js:30-35 | Writing the directory's `package.json` makes `validateProject` accept it |
| `Chatmodes.ProjectStaysProject` | lib/chatmode-manager.js:30-35 | Adding files and directories never makes a project stop being one, and a directory with neither `package.json` nor `.git` is not a project |
| `Chatmodes.ChatmodeManager.CreateVSCodeSettings` | lib/chatmode-manager.js:37-58 | `.vscode` is created and the settings file is written with the merged settings; when the merge throws, nothing is written |

## Left out

- Network clients are not modelled: the GitHub API, the Supabase client and `axios`. Each transport call, insert or query is an outcome passed in, and the model states what the code does with each outcome.
- Concurrency is not modelled. This covers:
  - fire-and-forget sends and the 10 second timeout (lib/analytics.js:137);
  - the promise chains;
  - the dashboard's insert completing after its answer is sent.
- Server plumbing is not modelled: Socket.IO broadcasting (only the message and the one-broadcast-per-ingest rule are kept), Express routing, middleware, CORS headers, and the listen and IP discovery of analytics-dashboard/server.js:10-23 and 202-241.
- Console output and spinners are not modelled.
- Prompts are not modelled: inquirer's consent prompt and the profile-choice prompt of bin/cli.js:540-564 become an answer parameter.
- Host and process calls are inputs rather than calls. This covers:
  - `git config`;
  - `os.hostname`, `os.platform`, `os.arch` and `os.cpus`;
  - `process.env` and `process.argv`;
  - the outcome of `npm install`.
  The text of npm's error is not modelled.
- `crypto.randomBytes` is a parameter with the right number of bytes. SHA-256 is a function assumed to yield 32 bytes; only the shape of its use is stated.
- The clock is a parameter. The source's clock calls (`Date.now`, `new Date().toISOString()`, SQLite `datetime('now')`) become `now` values. In the dashboard, SQLite's `datetime`/`DATE` reading of a stored timestamp is a function parameter. In the file store, the date comparison of `toDateString` is a predicate parameter.
- Floating point is not modelled. `Math.round` of SQLite's REAL division is restated as `(200 s + d) div (2 d)`, proved to be the nearest integer with halves rounded up.
- Numbers are unbounded integers. `parseInt` beyond 2^53, fractions and exponents are not modelled.
- JSON text encoding is abstracted. Stored JSON is a value, and so is the `event_data` column. An unparsable file is a plain text document.
- The spreads are simplified: spreading a string or an array (`{...s}`) is treated as spreading nothing.
- The `createIssueBody` markdown (lib/simple-analytics.js:147-211) is not modelled. It is free-form text built from dates and `execSync`; only the issue's title and labels are modelled.
- The global-storage scan of bin/cli.js:504-519 is not modelled. Its loop body only continues, so it never decides the result.
- `createTableDirectly` (vercel-analytics/lib/supabase-analytics.js:206-248) is not modelled. It issues one fixed SQL statement and reports success or failure.
- `vercel-analytics/api/setup.js` is not modelled. It calls an `initializeDatabase` that the collector module does not define.
- `lib/postinstall-tracker.js` is not modelled. It is a thin wrapper around `track` behind the global-install test, which `DetectInstallMethod` covers.
- The scripts `test-analytics.js`, `test-github-auth.js` and `test-npx-analytics.js` are manual network checks and are not modelled.
- `SimpleAnalytics.Emitter.Track` requires an `action` string, which the source's callers always pass; an event without one is not modelled.
- `SimpleAnalytics.Emitter.SendAnalytics` requires an `action` string for the same reason.
- `SupabaseAnalytics.GetStats` counts today's events over the corrected day window (`TodayEvents`). As written, the source ends the window one millisecond early; `SupabaseAnalytics.TodayEventsAsWritten` models that window and the Findings table shows the row it misses.
- `SupabaseAnalytics.GetStats` reads every row for the username and platform queries. The hosted API returns at most 1000 rows to a `select` without a range by default, so on a larger table the source counts users and platforms over the first 1000 rows only; the model does not capture that server-side cap.
- `Dashboard.Db.Ingest` does not model what node-sqlite3 does when the insert fails. The source calls `stmt.run` without a callback (analytics-dashboard/server.js:62-77), so a NOT NULL failure surfaces as an unhandled `error` event that ends the server process after the reply is sent. The model answers the same way and keeps serving with the table unchanged; it has no crashed state.
- `Dashboard.RecentActivity` lists the event groups in order of first appearance. SQL leaves the order of `GROUP BY` groups unspecified, so the model fixes one order that the source does not promise.
- `Dashboard.Latest` and `Dashboard.Users` rank rows by the `clock` parameter. The SQL takes `MAX(timestamp)` and sorts by `lastSeen` on the stored text; `clock` stands for that ranking, which matches the text order for the ISO 8601 timestamps the clients send.
- `ConsentAnalytics.ChatmodeCount` counts a string option's characters as code points, where JavaScript's `.length` counts UTF-16 units. An object option with its own `length` property counts as 0, where the source reads that property. The CLI passes an array or nothing.
- `Dashboard.UniqueUsers` and the `GROUP BY` queries compare stored values as JSON values. SQLite's TEXT affinity stores a number sent as `1` as the text `1`, so the source counts `1` and `"1"` as one user; the model counts two. The emitters in this repository send strings (see `ConsentAnalytics.UserInfo`).
- `ConsentAnalytics.GitEmail` trims ASCII white space only. `String.prototype.trim` also removes Unicode spaces and line terminators, which the model keeps.
- `StatsApi.ParseInt` skips ASCII white space only before the number, for the same reason.
- `Installer.ShouldCopy` looks for the copy's source among the files only. `fs.existsSync` is also true for a directory, which `fs.copy` would copy recursively; the template's chatmode and instruction paths name files, and directory trees are not modelled.
- `Files.Join` concatenates with a `/` and does no normalisation, where `path.join` collapses `.` and `..` segments and repeated separators. Paths in the model are un-normalised strings and the file system is keyed by them. A project path given as `my-app/`, `./app` or `../app` stays as typed, so `Join("my-app/", "package.json")` is `my-app//package.json` and not `my-app/package.json`. Every lookup and write goes through the same `Join`, so the model stays consistent, but it does not identify two spellings of one path.
- `AnalyticsApi.RepoDefault` states only which repository is used. The resulting URL follows from `DispatchOf`.

## Findings

| source | as written | input that shows it | evidently intended | confidence | as-written member | corrected member |
|---|---|---|---|---|---|---|
| vercel-analytics/lib/supabase-analytics.js:127-128 | today's events are those with `created_at >= <today>T00:00:00.000Z` and `< <today>T23:59:59.999Z` | a row created at 23:59:59.999 UTC on the current day | every row of the current UTC day counts, i.e. `< <tomorrow>T00:00:00.000Z` | not executed | `SupabaseAnalytics.LastMillisecondMissed` | `SupabaseAnalytics.TodayWindowIsTheDay` |
