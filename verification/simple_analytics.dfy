/** The telemetry emitter of lib/simple-analytics.js.  An event is offered to
    three transports in a fixed order, and the first success ends the chain:
    an issue on the project's issue tracker (only when a token is configured),
    a repository dispatch, and finally a local list, kept in a temporary
    file, that holds the last 50 events.  Nothing ever reaches the caller as
    an error.

    The network answers, the clock and the random bytes are parameters. */
module SimpleAnalytics {
  import opened Json
  import opened Seqs
  import opened Text
  import opened Files
  import opened Platform

  const Repo := "sjuberrafik-clgx/testgenie"
  const DefaultVersion := "1.1.1"
  /** How many events the local fallback list keeps. */
  const LocalCap: nat := 50
  /** The environment variables that may hold the token, in precedence order. */
  const TokenVars: seq<string> := ["GITHUB_TOKEN", "GH_TOKEN", "TESTGENIE_GITHUB_TOKEN"]

  /** `getGitHubToken`: the first of the token variables that is set and
      non-empty, or none when none is. */
  function GitHubToken(env: Env): (t: Option<string>)
    ensures t.None? <==> forall i :: 0 <= i < |TokenVars| ==> EnvVar(env, TokenVars[i]).None?
    ensures t.Some? ==>
      exists i :: 0 <= i < |TokenVars| && t == EnvVar(env, TokenVars[i]) &&
        forall j :: 0 <= j < i ==> EnvVar(env, TokenVars[j]).None?
  {
    if EnvVar(env, TokenVars[0]).Some? then EnvVar(env, TokenVars[0])
    else if EnvVar(env, TokenVars[1]).Some? then EnvVar(env, TokenVars[1])
    else EnvVar(env, TokenVars[2])
  }

  // ---------------------------------------------------------------------
  // Install-method classification

  datatype InstallMethod = Npx | Global | LocalInstall | UnknownMethod {
    function Name(): string {
      match this
      case Npx => "npx"
      case Global => "global"
      case LocalInstall => "local"
      case UnknownMethod => "unknown"
    }
  }

  /** What `detectInstallMethod` reads from the running process. */
  datatype Process = Process(env: Env, argv0: string, argv1: string)

  predicate NpxSignal(p: Process) {
    || EnvVar(p.env, "NPX_CLI_JS").Some?
    || Contains(p.argv0, "npx")
    || Contains(p.argv1, "_npx")
    || ("_" in p.env && Contains(p.env["_"], "npx"))
  }

  predicate GlobalSignal(p: Process) {
    || Contains(p.argv1, "node_modules/.bin")
    || Contains(p.argv1, "npm/bin")
    || EnvVar(p.env, "NPM_CONFIG_PREFIX").Some?
  }

  predicate LocalSignal(p: Process) {
    Contains(p.argv1, "node_modules")
  }

  /** `detectInstallMethod`: the first class, in the order npx, global,
      local, whose signal is present, and unknown when none is. */
  function DetectInstallMethod(p: Process): (m: InstallMethod)
    ensures m == Npx <==> NpxSignal(p)
    ensures m == Global <==> !NpxSignal(p) && GlobalSignal(p)
    ensures m == LocalInstall <==> !NpxSignal(p) && !GlobalSignal(p) && LocalSignal(p)
    ensures m == UnknownMethod <==> !NpxSignal(p) && !GlobalSignal(p) && !LocalSignal(p)
  {
    if NpxSignal(p) then Npx
    else if GlobalSignal(p) then Global
    else if LocalSignal(p) then LocalInstall
    else UnknownMethod
  }

  /** Setting NPX_CLI_JS is enough to be classified as an npx run, whatever
      the command line says. */
  lemma NpxVariableWins(p: Process)
    requires "NPX_CLI_JS" in p.env && p.env["NPX_CLI_JS"] != ""
    ensures DetectInstallMethod(p) == Npx
  {
  }

  /** A binary under node_modules/.bin also mentions node_modules, yet without
      an npx signal it is classified global, never local. */
  lemma BinDirectoryIsGlobal(p: Process)
    requires Contains(p.argv1, "node_modules/.bin") && !NpxSignal(p)
    ensures LocalSignal(p)
    ensures DetectInstallMethod(p) == Global
  {
    var i :| 0 <= i <= |p.argv1| && OccursAt(p.argv1, "node_modules/.bin", i);
    assert p.argv1[i..i + 12] == p.argv1[i..i + 17][..12];
    assert OccursAt(p.argv1, "node_modules", i);
  }

  // ---------------------------------------------------------------------
  // Event ids

  /** `generateEventId`: the action, the clock in milliseconds and four random
      bytes in hex, joined by dashes.  A specification helper; `EventIdShape`
      states its properties. */
  function EventId(action: string, millis: nat, random: seq<Byte>): string
    requires |random| == 4
  {
    action + "-" + Decimal(millis) + "-" + Hex(random)
  }

  /** An event id starts with the action and a dash, ends with a dash and
      eight hex digits, and both the clock reading and the random bytes can be
      read back from it. */
  lemma EventIdShape(action: string, millis: nat, random: seq<Byte>)
    requires |random| == 4
    ensures var id := EventId(action, millis, random);
      && StartsWith(id, action + "-")
      && |id| == |action| + |Decimal(millis)| + 10
      && id[|id| - 9] == '-'
      && (forall i :: |id| - 8 <= i < |id| ==> IsHexChar(id[i]))
      && UnHex(id[|id| - 8..]) == random
      && (forall i :: |action| + 1 <= i < |id| - 9 ==> IsDigit(id[i]))
      && DecimalValue(id[|action| + 1..|id| - 9]) == millis
  {
    var id := EventId(action, millis, random);
    var d := Decimal(millis);
    assert id == action + "-" + d + "-" + Hex(random);
    assert id[|id| - 8..] == Hex(random);
    assert id[|action| + 1..|id| - 9] == d;
    HexRoundTrip(random);
    DecimalRoundTrip(millis);
  }

  // ---------------------------------------------------------------------
  // Payload

  /** What `track` reads from the host besides the caller's data. */
  datatype Host = Host(platform: string, arch: string, nodeVersion: string,
                       nowIso: string, nowMillis: nat, process: Process)

  /** Event data as every caller passes it: with a string `action`. */
  predicate HasAction(data: map<string, Value>) {
    "action" in data && data["action"].Str?
  }

  /** The payload fields `track` computes itself. */
  function Defaults(data: map<string, Value>, host: Host, eventId: string): map<string, Value> {
    Defined("action", Field(data, "action")) +
    map[
      "timestamp" := Str(host.nowIso),
      "platform" := Str(host.platform),
      "arch" := Str(host.arch),
      "nodeVersion" := Str(host.nodeVersion),
      "version" := Or(Field(data, "version"), Str(DefaultVersion)),
      "installMethod" := Str(DetectInstallMethod(host.process).Name()),
      "eventId" := Str(eventId)
    ]
  }

  /** The payload of `track`: the computed fields, then the caller's data
      spread over them, so a caller field always wins. */
  function Payload(data: map<string, Value>, host: Host, eventId: string): (p: map<string, Value>)
    ensures forall k :: k in data ==> k in p && p[k] == data[k]
    ensures p.Keys == data.Keys + {"timestamp", "platform", "arch", "nodeVersion", "version", "installMethod", "eventId"}
    ensures "timestamp" !in data ==> p["timestamp"] == Str(host.nowIso)
    ensures "platform" !in data ==> p["platform"] == Str(host.platform)
    ensures "arch" !in data ==> p["arch"] == Str(host.arch)
    ensures "nodeVersion" !in data ==> p["nodeVersion"] == Str(host.nodeVersion)
    ensures "installMethod" !in data ==> p["installMethod"] == Str(DetectInstallMethod(host.process).Name())
    ensures "eventId" !in data ==> p["eventId"] == Str(eventId)
    ensures p["version"] == if "version" in data then data["version"] else Str(DefaultVersion)
  {
    Defaults(data, host, eventId) + data
  }

  // ---------------------------------------------------------------------
  // The issue transport's request

  /** The issue title: the action and the date part (before 'T') of the
      ISO-8601 clock reading. */
  function IssueTitle(action: string, nowIso: string): string {
    "[Analytics] " + action + " - " + Before(nowIso, 'T')
  }

  /** The issue labels; an `undefined` entry becomes `null` in the JSON body. */
  function IssueLabels(p: map<string, Value>): (labels: seq<Value>)
    ensures |labels| == 4 && labels[0] == Str("analytics")
    ensures labels[1] == if "action" in p then p["action"] else Null
    ensures labels[2] == if "platform" in p then p["platform"] else Null
    ensures labels[3] == if "installMethod" in p && Truthy(p["installMethod"]) then p["installMethod"] else Str("unknown")
  {
    [Str("analytics"), Field(p, "action").GetOr(Null), Field(p, "platform").GetOr(Null),
     Or(Field(p, "installMethod"), Str("unknown"))]
  }

  /** The title holds the action and no time of day. */
  lemma IssueTitleDateOnly(action: string, nowIso: string)
    ensures StartsWith(IssueTitle(action, nowIso), "[Analytics] " + action + " - ")
    ensures 'T' !in IssueTitle(action, nowIso)[|action| + 15..]
    ensures StartsWith(nowIso, IssueTitle(action, nowIso)[|action| + 15..])
  {
    var t := IssueTitle(action, nowIso);
    assert t[|action| + 15..] == Before(nowIso, 'T');
  }

  // ---------------------------------------------------------------------
  // The fallback chain, as specification functions

  /** The `event_type` of every repository dispatch. */
  const DispatchEventType: string := "analytics_data"

  /** An HTTP request the emitter issued; a dispatch carries its event type
      and its client payload. */
  datatype Request =
    | CreateIssue(title: string, labels: seq<Value>, token: string)
    | Dispatch(eventType: string, payload: map<string, Value>, auth: Option<string>)

  /** What a transport attempt came to.  `Ok` is a 2xx answer the emitter
      accepts: for the issue transport, one whose body parses and has a
      `number`.  `NotOk` is another answer.  `Failed` is an exception:
      a network failure, a timeout, or, for the issue transport, a 2xx whose
      body does not parse or is `null`, which also falls through to the next
      transport. */
  datatype Outcome = Ok | NotOk(status: int) | Failed

  datatype Delivery = ViaIssue | ViaDispatch | ViaLocal

  /** Which transport delivers the event.  A specification helper;
      `ChainOrder` states its properties. */
  function Chain(hasToken: bool, issue: Outcome, dispatch: Outcome): Delivery {
    if hasToken && issue.Ok? then ViaIssue
    else if dispatch.Ok? then ViaDispatch
    else ViaLocal
  }

  /** The requests issued, in order: the issue only with a token, the dispatch
      only when there was no issue success, carrying the token if there is
      one. */
  function Attempts(token: Option<string>, title: string, labels: seq<Value>,
                    payload: map<string, Value>, issue: Outcome): seq<Request>
  {
    (if token.Some? then [CreateIssue(title, labels, token.value)] else []) +
    (if token.Some? && issue.Ok? then [] else [Dispatch(DispatchEventType, payload, token)])
  }

  /** The local file after appending `entry` to the list it holds (a missing
      or unparsable file counts as an empty list) and keeping the last 50.
      The file is untouched when it holds JSON that is not a list (the append
      throws) or when the write fails: both errors are swallowed. */
  function LocalAfter(file: Option<Doc>, entry: Value, writeOk: bool): Option<Doc> {
    var existing := if file.Some? && file.value.JsonDoc? then file.value.v else Arr([]);
    if existing.Arr? && writeOk then Some(JsonDoc(Arr(LastN(existing.items + [entry], LocalCap))))
    else file
  }

  /** The list the local file holds, as `readJson` or the fallback sees it. */
  function LocalList(file: Option<Doc>): seq<Value> {
    if file.Some? && file.value.JsonDoc? && file.value.v.Arr? then file.value.v.items else []
  }

  /** The issue transport is tried exactly when there is a token, and the
      dispatch exactly when the issue transport did not succeed; the local
      list is used exactly when neither network transport succeeded. */
  lemma ChainOrder(token: Option<string>, title: string, labels: seq<Value>,
                   payload: map<string, Value>, issue: Outcome, dispatch: Outcome)
    ensures var a := Attempts(token, title, labels, payload, issue);
      && (token.Some? <==> (|a| > 0 && a[0].CreateIssue?))
      && (a[|a| - 1].Dispatch? <==> !(token.Some? && issue.Ok?))
      && (forall i :: 0 <= i < |a| && a[i].Dispatch? ==>
            a[i].auth == token && a[i].payload == payload && a[i].eventType == DispatchEventType)
      && |a| <= 2
    ensures Chain(token.Some?, issue, dispatch) == ViaLocal <==>
      !(token.Some? && issue.Ok?) && !dispatch.Ok?
  {
  }

  /** After a local append the list holds at most 50 entries: the last 50 of
      the old list followed by the new event, which is the newest entry. */
  lemma LocalAppendBounded(file: Option<Doc>, entry: Value)
    requires file.None? || file.value.Plain? || file.value.v.Arr?
    ensures var after := LocalAfter(file, entry, true);
      && after == Some(JsonDoc(Arr(LastN(LocalList(file) + [entry], LocalCap))))
      && |after.value.v.items| <= LocalCap
      && after.value.v.items[|after.value.v.items| - 1] == entry
  {
    var kept := LastN(LocalList(file) + [entry], LocalCap);
    assert LocalAfter(file, entry, true) == Some(JsonDoc(Arr(kept)));
    LastNKeepsNewest(LocalList(file), entry, LocalCap);
  }

  /** However many events fall through to the local list, one after another,
      it holds exactly the last 50 of all of them, in order. */
  lemma LocalKeepsNewest(file: Option<Doc>, entry: Value, later: seq<Value>)
    requires file.None? || file.value.Plain? || file.value.v.Arr?
    ensures var first := LocalList(LocalAfter(file, entry, true));
      AppendEach(first, later, LocalCap) == LastN(LocalList(file) + [entry] + later, LocalCap)
  {
    var first := LocalList(LocalAfter(file, entry, true));
    LocalAppendBounded(file, entry);
    AppendEachKeepsLast(first, later, LocalCap);
    LastNAppend(LocalList(file) + [entry], later, LocalCap);
  }

  // ---------------------------------------------------------------------
  // The emitter object

  class Emitter {
    var enabled: bool
    const token: Option<string>
    /** The file testgenie-analytics.json in the temporary directory. */
    var localFile: Option<Doc>
    /** Every HTTP request issued, in order. */
    var requests: seq<Request>

    constructor (env: Env, localFile: Option<Doc>)
      ensures enabled && token == GitHubToken(env)
      ensures this.localFile == localFile && requests == []
    {
      enabled := true;
      token := GitHubToken(env);
      this.localFile := localFile;
      requests := [];
    }

    /** `sendAnalytics`: tries the transports in order and stops at the first
        success; the local list is the last resort and never fails
        observably. */
    method SendAnalytics(data: map<string, Value>, nowIso: string,
                         issue: Outcome, dispatch: Outcome, writeOk: bool)
      returns (via: Delivery)
      requires HasAction(data)
      modifies this`localFile, this`requests
      ensures via == Chain(token.Some?, issue, dispatch)
      ensures requests == old(requests) +
        Attempts(token, IssueTitle(data["action"].s, nowIso), IssueLabels(data), data, issue)
      ensures localFile == if via == ViaLocal then LocalAfter(old(localFile), Obj(data), writeOk)
                           else old(localFile)
    {
      if token.Some? {
        requests := requests + [CreateIssue(IssueTitle(data["action"].s, nowIso), IssueLabels(data), token.value)];
        if issue.Ok? {
          return ViaIssue;
        }
      }
      requests := requests + [Dispatch(DispatchEventType, data, token)];
      if dispatch.Ok? {
        return ViaDispatch;
      }
      via := ViaLocal;
      var existing: seq<Value> := [];
      if localFile.Some? && localFile.value.JsonDoc? {
        if !localFile.value.v.Arr? {
          return;
        }
        existing := localFile.value.v.items;
      }
      existing := existing + [Obj(data)];
      if |existing| > LocalCap {
        existing := existing[|existing| - LocalCap..];
      }
      if writeOk {
        localFile := Some(JsonDoc(Arr(existing)));
      }
    }

    /** `track`: nothing at all while disabled; otherwise builds the payload
        and runs the fallback chain. */
    method Track(data: map<string, Value>, host: Host, random: seq<Byte>,
                 issue: Outcome, dispatch: Outcome, writeOk: bool)
      returns (via: Option<Delivery>)
      requires HasAction(data) && |random| == 4
      modifies this`localFile, this`requests
      ensures !enabled ==> via.None? && requests == old(requests) && localFile == old(localFile)
      ensures enabled ==>
        var p := Payload(data, host, EventId(data["action"].s, host.nowMillis, random));
        && via == Some(Chain(token.Some?, issue, dispatch))
        && requests == old(requests) +
             Attempts(token, IssueTitle(p["action"].s, host.nowIso), IssueLabels(p), p, issue)
        && localFile == if via.value == ViaLocal then LocalAfter(old(localFile), Obj(p), writeOk)
                        else old(localFile)
    {
      if !enabled {
        return None;
      }
      var eventId := EventId(data["action"].s, host.nowMillis, random);
      var p := Payload(data, host, eventId);
      var d := SendAnalytics(p, host.nowIso, issue, dispatch, writeOk);
      via := Some(d);
    }
  }

  // ---------------------------------------------------------------------
  // The track* helpers: the event data each one hands to `track`

  function NpxUsageData(data: map<string, Value>): map<string, Value> {
    map["action" := Str("npx_usage"), "command" := Str("npx testgenie-cli")] + data
  }

  function InstallStartData(data: map<string, Value>): map<string, Value> {
    map["action" := Str("install_start")] + data
  }

  function InstallSuccessData(data: map<string, Value>): map<string, Value> {
    map["action" := Str("install_success")] + data
  }

  /** `error.message` is `None` when the error has no message; the key then
      does not survive serialisation. */
  function InstallErrorData(message: Option<Value>, data: map<string, Value>): map<string, Value> {
    map["action" := Str("install_error")] + Defined("error", message) + data
  }

  function CommandData(command: Value, data: map<string, Value>): map<string, Value> {
    map["action" := Str("command"), "command" := command] + data
  }

  /** Each helper tags the event with its action unless the caller's data
      names one, and passes every caller field through unchanged. */
  lemma HelpersTagAction(data: map<string, Value>, message: Option<Value>, command: Value)
    ensures "action" !in data ==>
      && NpxUsageData(data)["action"] == Str("npx_usage")
      && InstallStartData(data)["action"] == Str("install_start")
      && InstallSuccessData(data)["action"] == Str("install_success")
      && InstallErrorData(message, data)["action"] == Str("install_error")
      && CommandData(command, data)["action"] == Str("command")
    ensures "action" !in data ==>
      && HasAction(NpxUsageData(data)) && HasAction(InstallStartData(data))
      && HasAction(InstallSuccessData(data)) && HasAction(InstallErrorData(message, data))
      && HasAction(CommandData(command, data))
    ensures forall k :: k in data ==> NpxUsageData(data)[k] == data[k] && CommandData(command, data)[k] == data[k]
    ensures forall k :: k in data ==> InstallStartData(data)[k] == data[k] && InstallSuccessData(data)[k] == data[k]
    ensures forall k :: k in data ==> InstallErrorData(message, data)[k] == data[k]
    ensures "command" !in data ==> NpxUsageData(data)["command"] == Str("npx testgenie-cli")
    ensures "error" !in data && message.Some? ==> InstallErrorData(message, data)["error"] == message.value
    ensures "error" !in data && message.None? ==> "error" !in InstallErrorData(message, data)
  {
  }
}
