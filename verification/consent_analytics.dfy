/** The consent-gated analytics client of lib/analytics.js.  A new client
    is disabled; `initialize` reads the stored consent from the user's
    config file, and asks once when there is none.  While enabled, `track`
    posts one payload per event, built from the caller's data, the user's
    identity and fixed system fields, under a session id generated once per
    client.

    The config file, the prompt's answer, the environment, the host facts,
    `git config` output, random bytes and SHA-256 are parameters; the post
    itself is fire-and-forget and is recorded, not performed. */
module ConsentAnalytics {
  import opened Json
  import opened Text
  import opened Files
  import opened Platform

  /** `getConfig` on the content of ~/.testgenie/config.json: the parsed
      JSON, or an empty object when the file is missing or does not parse. */
  function ConfigOf(file: Option<Doc>): (c: Value)
    ensures file.None? || file.value.Plain? ==> c == Obj(map[])
    ensures file.Some? && file.value.JsonDoc? ==> c == file.value.v
  {
    if file.Some? && file.value.JsonDoc? then file.value.v else Obj(map[])
  }

  /** `config.analyticsConsent`: `undefined` unless the config is an object
      holding that key, and an exception when the config is `null`. */
  function StoredConsent(file: Option<Doc>): Attempt<Option<Value>> {
    var c := ConfigOf(file);
    if c.Null? then Threw else Returned(Get(Some(c), "analyticsConsent"))
  }

  /** The config file after `saveConfig({analyticsConsent: b})`; a failed
      write is ignored. */
  function SavedConsent(file: Option<Doc>, b: bool, saveOk: bool): Option<Doc> {
    if saveOk then Some(JsonDoc(Obj(map["analyticsConsent" := Bool(b)]))) else file
  }

  /** What `initialize` leaves behind. */
  datatype InitOutcome = InitOutcome(enabled: Value, result: Value, prompted: bool, file: Option<Doc>)

  /** `initialize`, given the current `enabled`, the config file, the answer
      to the consent prompt (none when the prompt throws) and whether the
      config write succeeds.  Every exception is caught and yields false,
      leaving `enabled` as it was. */
  function Initialized(enabled: Value, file: Option<Doc>, answer: Option<bool>, saveOk: bool): InitOutcome {
    match StoredConsent(file)
    case Threw => InitOutcome(enabled, Bool(false), false, file)
    case Returned(None) =>
      if answer.None? then InitOutcome(enabled, Bool(false), true, file)
      else InitOutcome(Bool(answer.value), Bool(answer.value), true, SavedConsent(file, answer.value, saveOk))
    case Returned(Some(v)) => InitOutcome(v, v, false, file)
  }

  /** The prompt is shown exactly when no consent is stored; otherwise the
      stored value becomes `enabled`, whatever it is; when reading the config
      or the prompt fails, the result is false and `enabled` is kept. */
  lemma InitializeGate(enabled: Value, file: Option<Doc>, answer: Option<bool>, saveOk: bool)
    ensures var r := Initialized(enabled, file, answer, saveOk);
      && (r.prompted <==> StoredConsent(file) == Returned(None))
      && (StoredConsent(file).Returned? && StoredConsent(file).value.Some? ==>
            r.enabled == StoredConsent(file).value.value && r.result == r.enabled && r.file == file)
      && (StoredConsent(file).Threw? || (r.prompted && answer.None?) ==>
            r.enabled == enabled && r.result == Bool(false) && r.file == file)
      && (r.prompted && answer.Some? ==> r.enabled == Bool(answer.value) && r.result == r.enabled)
  {
  }

  /** A consent given once is remembered: when the answer was saved, the next
      `initialize` (on a new client or the same one) does not ask again and
      enables exactly as answered, whatever would have been answered then. */
  lemma ConsentPersists(enabled: Value, file: Option<Doc>, b: bool, later: Value, answer: Option<bool>, saveOk: bool)
    requires Initialized(enabled, file, Some(b), true).prompted
    ensures var saved := Initialized(enabled, file, Some(b), true).file;
      Initialized(later, saved, answer, saveOk) == InitOutcome(Bool(b), Bool(b), false, saved)
  {
    var saved := Initialized(enabled, file, Some(b), true).file;
    assert saved == Some(JsonDoc(Obj(map["analyticsConsent" := Bool(b)])));
    assert StoredConsent(saved) == Returned(Some(Bool(b)));
  }

  /** `getGitEmail`: the trimmed output of `git config --global user.email`,
      or 'unknown' when the command fails or prints only white space. */
  function GitEmail(output: Option<string>): (r: string)
    ensures r != ""
    ensures output.None? || Trim(output.value) == "" ==> r == "unknown"
    ensures output.Some? && Trim(output.value) != "" ==>
      r == Trim(output.value) && Contains(output.value, r) && !IsSpace(r[0]) && !IsSpace(r[|r| - 1])
  {
    if output.Some? && Trim(output.value) != "" then Trim(output.value) else "unknown"
  }

  /** The user name: USERNAME, else USER, else 'unknown'. */
  function Username(env: Env): (r: string)
    ensures r != ""
    ensures EnvVar(env, "USERNAME").Some? ==> r == env["USERNAME"]
    ensures EnvVar(env, "USERNAME").None? && EnvVar(env, "USER").Some? ==> r == env["USER"]
    ensures EnvVar(env, "USERNAME").None? && EnvVar(env, "USER").None? ==> r == "unknown"
  {
    if EnvVar(env, "USERNAME").Some? then env["USERNAME"]
    else if EnvVar(env, "USER").Some? then env["USER"]
    else "unknown"
  }

  /** The domain: the host name without its first label, or 'unknown' when
      that leaves nothing. */
  function Domain(hostname: string): (r: string)
    ensures r != ""
    ensures '.' !in hostname ==> r == "unknown"
    ensures r != "unknown" ==> hostname == Before(hostname, '.') + "." + r
  {
    if After(hostname, '.') != "" then After(hostname, '.') else "unknown"
  }

  /** A fully qualified host name yields the rest after its first label. */
  lemma DomainOfQualifiedHost(first: string, rest: string)
    requires '.' !in first && rest != ""
    ensures Domain(first + "." + rest) == rest
  {
    AfterFirst(first, rest);
  }

  lemma AfterFirst(first: string, rest: string)
    requires '.' !in first
    ensures After(first + "." + rest, '.') == rest
  {
    BeforeFirst(first, '.', rest);
    var s := first + "." + rest;
    assert s[|first| + 1..] == rest;
  }

  /** The host facts the client reads. */
  datatype SystemInfo = SystemInfo(
    hostname: string, platform: string, arch: string, cpus: nat,
    nodeVersion: string, version: string, cwd: string, nowIso: string)

  /** The anonymous machine fingerprint. */
  function Fingerprint(sys: SystemInfo): string {
    sys.hostname + "-" + sys.platform + "-" + sys.arch + "-" + Decimal(sys.cpus)
  }

  /** `getMachineId`: the first 16 hex digits of the SHA-256 of the
      fingerprint.  The hash is a parameter; only the length of its output is
      assumed. */
  function MachineId(sys: SystemInfo, sha256: string -> seq<Byte>): (id: string)
    requires |sha256(Fingerprint(sys))| == 32
    ensures |id| == 16
    ensures forall i :: 0 <= i < 16 ==> IsHexChar(id[i])
  {
    Hex(sha256(Fingerprint(sys)))[..16]
  }

  /** The machine id encodes exactly the first 8 bytes of the digest, so it
      depends on the host name, platform, architecture and CPU count only. */
  lemma MachineIdIsDigestPrefix(sys: SystemInfo, sha256: string -> seq<Byte>)
    requires |sha256(Fingerprint(sys))| == 32
    ensures UnHex(MachineId(sys, sha256)) == sha256(Fingerprint(sys))[..8]
  {
    var d := sha256(Fingerprint(sys));
    HexPrefix(d, 8);
    HexRoundTrip(d[..8]);
  }

  /** The field names `track` sets itself inside `data`. */
  const SystemKeys: set<string> := {"version", "nodeVersion", "platform", "arch", "machineId", "installLocation"}

  /** The `data` part of the payload: the caller's data with the system
      fields spread after it, so the system fields win. */
  function EventData(data: map<string, Value>, sys: SystemInfo, sha256: string -> seq<Byte>): (d: map<string, Value>)
    requires |sha256(Fingerprint(sys))| == 32
    ensures d.Keys == data.Keys + SystemKeys
    ensures forall k :: k in data && k !in SystemKeys ==> d[k] == data[k]
    ensures d["version"] == Str(sys.version) && d["platform"] == Str(sys.platform)
    ensures d["nodeVersion"] == Str(sys.nodeVersion) && d["arch"] == Str(sys.arch)
    ensures d["machineId"] == Str(MachineId(sys, sha256)) && d["installLocation"] == Str(sys.cwd)
  {
    data + map[
      "version" := Str(sys.version),
      "nodeVersion" := Str(sys.nodeVersion),
      "platform" := Str(sys.platform),
      "arch" := Str(sys.arch),
      "machineId" := Str(MachineId(sys, sha256)),
      "installLocation" := Str(sys.cwd)
    ]
  }

  /** The user identity block of the payload. */
  function UserInfo(env: Env, sys: SystemInfo, gitOutput: Option<string>): (u: map<string, Value>)
    ensures u.Keys == {"username", "hostname", "userEmail", "domain"}
    ensures u["hostname"] == Str(sys.hostname)
    ensures forall k :: k in u && k != "hostname" ==> u[k].Str? && u[k].s != ""
  {
    map[
      "username" := Str(Username(env)),
      "hostname" := Str(sys.hostname),
      "userEmail" := Str(GitEmail(gitOutput)),
      "domain" := Str(Domain(sys.hostname))
    ]
  }

  /** The payload `track` posts. */
  function TrackPayload(event: string, data: map<string, Value>, sessionId: string, env: Env,
                        sys: SystemInfo, gitOutput: Option<string>, sha256: string -> seq<Byte>): map<string, Value>
    requires |sha256(Fingerprint(sys))| == 32
  {
    map[
      "event" := Str(event),
      "timestamp" := Str(sys.nowIso),
      "sessionId" := Str(sessionId),
      "userInfo" := Obj(UserInfo(env, sys, gitOutput)),
      "data" := Obj(EventData(data, sys, sha256))
    ]
  }

  /** The session id after `getSessionId`: the remembered one, or the hex of
      16 random bytes when there is none yet. */
  function SessionAfter(sessionId: Option<string>, random: seq<Byte>): (id: string)
    requires |random| == 16
    ensures id != ""
    ensures sessionId.Some? && sessionId.value != "" ==> id == sessionId.value
    ensures sessionId.None? ==> id == Hex(random) && |id| == 32
  {
    if sessionId.Some? && sessionId.value != "" then sessionId.value
    else Hex(random)
  }

  class Analytics {
    /** Whatever value consent was read as; `track` tests its truthiness. */
    var enabled: Value
    var sessionId: Option<string>
    /** The content of ~/.testgenie/config.json. */
    var configFile: Option<Doc>
    /** The payloads handed to the HTTP client, in order. */
    var posted: seq<Value>

    constructor (configFile: Option<Doc>)
      ensures enabled == Bool(false) && !Truthy(enabled)
      ensures sessionId.None? && posted == [] && this.configFile == configFile
    {
      enabled := Bool(false);
      sessionId := None;
      this.configFile := configFile;
      posted := [];
    }

    function GetConfig(): (c: Value)
      reads this
      ensures c == ConfigOf(configFile)
    {
      ConfigOf(configFile)
    }

    /** `requestConsent`: saves the answer (ignoring a failed write) and
        enables accordingly; a prompt that throws changes nothing. */
    method RequestConsent(answer: Option<bool>, saveOk: bool) returns (r: Attempt<Value>)
      modifies this`enabled, this`configFile
      ensures answer.None? ==> r.Threw? && enabled == old(enabled) && configFile == old(configFile)
      ensures answer.Some? ==>
        && r == Returned(Bool(answer.value)) && enabled == Bool(answer.value)
        && configFile == SavedConsent(old(configFile), answer.value, saveOk)
    {
      if answer.None? {
        return Threw;
      }
      if saveOk {
        configFile := Some(JsonDoc(Obj(map["analyticsConsent" := Bool(answer.value)])));
      }
      enabled := Bool(answer.value);
      r := Returned(enabled);
    }

    /** `initialize`: the consent gate. */
    method Initialize(answer: Option<bool>, saveOk: bool) returns (result: Value)
      modifies this`enabled, this`configFile
      ensures var o := Initialized(old(enabled), old(configFile), answer, saveOk);
        enabled == o.enabled && result == o.result && configFile == o.file
    {
      var config := GetConfig();
      if config.Null? {
        return Bool(false);
      }
      var consent := Get(Some(config), "analyticsConsent");
      if consent.None? {
        var r := RequestConsent(answer, saveOk);
        if r.Threw? {
          return Bool(false);
        }
        return r.value;
      }
      enabled := consent.value;
      result := enabled;
    }

    /** `getSessionId`: generated on first use, then always the same. */
    method GetSessionId(random: seq<Byte>) returns (id: string)
      requires |random| == 16
      modifies this`sessionId
      ensures id == SessionAfter(old(sessionId), random)
      ensures sessionId == Some(id)
    {
      if sessionId.None? || sessionId.value == "" {
        sessionId := Some(Hex(random));
      }
      id := sessionId.value;
    }

    /** `track`: nothing while disabled; otherwise one payload is posted. */
    method Track(event: string, data: map<string, Value>, env: Env, sys: SystemInfo,
                 gitOutput: Option<string>, random: seq<Byte>, sha256: string -> seq<Byte>)
      requires |random| == 16 && |sha256(Fingerprint(sys))| == 32
      modifies this`sessionId, this`posted
      ensures !Truthy(enabled) ==> sessionId == old(sessionId) && posted == old(posted)
      ensures Truthy(enabled) ==>
        && sessionId == Some(SessionAfter(old(sessionId), random))
        && posted == old(posted) + [Obj(TrackPayload(event, data, sessionId.value, env, sys, gitOutput, sha256))]
    {
      if !Truthy(enabled) {
        return;
      }
      var sid := GetSessionId(random);
      posted := posted + [Obj(TrackPayload(event, data, sid, env, sys, gitOutput, sha256))];
    }
  }

  /** The session id survives every later call: a second `getSessionId`
      returns what the first one did, whatever random bytes it is offered. */
  lemma SessionIdStable(sessionId: Option<string>, first: seq<Byte>, second: seq<Byte>)
    requires |first| == 16 && |second| == 16
    ensures SessionAfter(Some(SessionAfter(sessionId, first)), second) == SessionAfter(sessionId, first)
  {
  }

  // ---------------------------------------------------------------------
  // The track* helpers: the data each one passes to `track`

  /** `options.x || d` for an option object given by its property map. */
  function OptionOr(options: map<string, Value>, k: string, d: Value): Value {
    Or(Field(options, k), d)
  }

  function InstallStartData(options: map<string, Value>): map<string, Value> {
    map[
      "type" := OptionOr(options, "type", Str("interactive")),
      "skipDeps" := OptionOr(options, "noDeps", Bool(false)),
      "skipMcp" := OptionOr(options, "noMcp", Bool(false)),
      "force" := OptionOr(options, "force", Bool(false))
    ]
  }

  /** `options.chatmodes?.length || 0`. */
  function ChatmodeCount(options: map<string, Value>): (n: nat)
    ensures "chatmodes" in options && options["chatmodes"].Arr? ==> n == |options["chatmodes"].items|
    ensures "chatmodes" !in options ==> n == 0
  {
    match Field(options, "chatmodes")
    case Some(Arr(items)) => |items|
    case Some(Str(s)) => |s|
    case _ => 0
  }

  function InstallSuccessData(options: map<string, Value>, duration: Option<Value>): map<string, Value> {
    map[
      "type" := OptionOr(options, "type", Str("interactive")),
      "chatmodesInstalled" := Num(ChatmodeCount(options))
    ] + Defined("duration", duration)
  }

  function InstallErrorData(message: Option<Value>, options: map<string, Value>): map<string, Value> {
    Defined("error", message) + map["type" := OptionOr(options, "type", Str("interactive"))]
  }

  /** `trackCommand(command, success = true)`: only a missing `success`
      takes the default. */
  function CommandData(command: Option<Value>, success: Option<Value>): map<string, Value> {
    Defined("command", command) + map["success" := success.GetOr(Bool(true))]
  }

  /** The flags of `trackInstallStart`: each of `noDeps`, `noMcp` and
      `force` is passed through when truthy and becomes false otherwise. */
  lemma InstallStartFlags(options: map<string, Value>)
    ensures InstallStartData(options).Keys == {"type", "skipDeps", "skipMcp", "force"}
    ensures InstallStartData(options)["skipDeps"] ==
      if "noDeps" in options && Truthy(options["noDeps"]) then options["noDeps"] else Bool(false)
    ensures InstallStartData(options)["skipMcp"] ==
      if "noMcp" in options && Truthy(options["noMcp"]) then options["noMcp"] else Bool(false)
    ensures InstallStartData(options)["force"] ==
      if "force" in options && Truthy(options["force"]) then options["force"] else Bool(false)
  {
  }

  /** The defaults the install helpers apply: 'interactive' for a falsy
      type, 0 installed chatmodes when there is no list, and the caller's
      truthy options passed through.  `CommandData` is a two-key map with
      two `||` defaults, so it is shown by two cases here; a general clause
      would only repeat its definition. */
  lemma InstallHelperDefaults(options: map<string, Value>, duration: Option<Value>)
    ensures InstallStartData(options)["type"] ==
      if "type" in options && Truthy(options["type"]) then options["type"] else Str("interactive")
    ensures InstallSuccessData(options, duration)["type"] == InstallStartData(options)["type"]
    ensures "chatmodes" !in options ==> InstallSuccessData(options, duration)["chatmodesInstalled"] == Num(0)
    ensures ("duration" in InstallSuccessData(options, duration)) <==> duration.Some?
    ensures InstallErrorData(None, options).Keys == {"type"}
    ensures CommandData(Some(Str("init")), None) == map["command" := Str("init"), "success" := Bool(true)]
    ensures CommandData(None, Some(Bool(false)))["success"] == Bool(false)
  {
  }
}
