/** How `getVSCodeProfilePath` in bin/cli.js chooses the VS Code user
    directory that receives the MCP configuration.  The interactive prompt
    and the listings of the workspace storage and profiles directories are
    parameters. */
module VSCodeProfile {
  import opened Json
  import opened Seqs
  import opened Text
  import opened Files

  function UserDir(home: string): string { Join(Join(Join(Join(home, "AppData"), "Roaming"), "Code"), "User") }
  function ProfilesDir(home: string): string { Join(UserDir(home), "profiles") }
  function ArgvFile(home: string): string { Join(Join(Join(Join(home, "AppData"), "Roaming"), "Code"), "argv.json") }

  /** What the profile prompt yields: a chosen value, or a failure (no
      terminal), after which the first profile is used. */
  datatype PromptAnswer = Chose(value: string) | PromptFailed

  predicate IsProfileDir(home: string, dirs: set<string>, name: string) {
    Join(ProfilesDir(home), name) in dirs
  }

  function WorkspaceStorageDir(home: string): string { Join(UserDir(home), "workspaceStorage") }

  /** Reading a JSON file for the profile it names, as both `argv.json` and
      a workspace's `workspace.json` are read: `Some(path)` when its
      `profile` is truthy, not `default`, and names an existing profile
      directory; `None` otherwise; `Threw` when reading throws (a missing or
      malformed file, a `null` content, or a `profile` that is not a
      string). */
  function NamedProfile(home: string, files: map<string, Doc>, dirs: set<string>, file: string): (r: Attempt<Option<string>>)
    ensures r.Returned? && r.value.Some? ==>
      StartsWith(r.value.value, ProfilesDir(home) + "/") && ExistsIn(files, dirs, r.value.value)
    ensures ReadJson(files, file).Threw? ==> r.Threw?
  {
    match ReadJson(files, file)
    case Threw => Threw
    case Returned(doc) =>
      if doc.Null? then Threw
      else
        var profile := Get(Some(doc), "profile");
        if !Truthy(Or(profile, Null)) || profile.value == Str("default") then Returned(None)
        else if !profile.value.Str? then Threw
        else if ExistsIn(files, dirs, Join(ProfilesDir(home), profile.value.s)) then
          JoinStartsWith(ProfilesDir(home), profile.value.s);
          Returned(Some(Join(ProfilesDir(home), profile.value.s)))
        else Returned(None)
  }

  /** Method 1, `argv.json`: nothing to go on when the file is absent. A
      specification helper; `ProfileResolution` and `BrokenArgvFallsBack`
      state what it decides. */
  function ArgvProfile(home: string, files: map<string, Doc>, dirs: set<string>): Attempt<Option<string>> {
    if !ExistsIn(files, dirs, ArgvFile(home)) then Returned(None)
    else NamedProfile(home, files, dirs, ArgvFile(home))
  }

  /** Method 2, the scan of the `workspaceStorage` folders in listing order:
      the first `workspace.json` that names an existing profile gives it.
      A read that throws ends the scan with nothing, since the source's
      `catch` moves on to the next method. */
  function ScanWorkspaces(home: string, files: map<string, Doc>, dirs: set<string>, folders: seq<string>): (r: Option<string>)
    ensures r.Some? ==> StartsWith(r.value, ProfilesDir(home) + "/") && ExistsIn(files, dirs, r.value)
    decreases |folders|
  {
    if folders == [] then None
    else
      var ws := Join(Join(WorkspaceStorageDir(home), folders[0]), "workspace.json");
      if !ExistsIn(files, dirs, ws) then ScanWorkspaces(home, files, dirs, folders[1..])
      else match NamedProfile(home, files, dirs, ws)
        case Threw => None
        case Returned(Some(p)) => Some(p)
        case Returned(None) => ScanWorkspaces(home, files, dirs, folders[1..])
  }

  /** The scan stops at the first folder whose `workspace.json` exists:
      with a named existing profile it yields that profile, and with a file
      that does not parse it yields nothing, whatever later folders hold. */
  lemma ScanStopsAtFirstWorkspace(home: string, files: map<string, Doc>, dirs: set<string>,
                                  folders: seq<string>, name: string, text: string)
    requires folders != []
    requires name != "" && name != "default"
    ensures var ws := Join(Join(WorkspaceStorageDir(home), folders[0]), "workspace.json");
      && (ws in files && files[ws] == JsonDoc(Obj(map["profile" := Str(name)]))
            && Join(ProfilesDir(home), name) in dirs ==>
          ScanWorkspaces(home, files, dirs, folders) == Some(Join(ProfilesDir(home), name)))
      && (ws in files && files[ws] == Plain(text) ==> ScanWorkspaces(home, files, dirs, folders).None?)
  {
  }

  /** `folders` is what `workspaceStorage` lists; a `workspaceStorage` that
      is a file makes the listing throw, which the scan's `catch` absorbs. */
  function WorkspaceProfile(home: string, files: map<string, Doc>, dirs: set<string>, folders: seq<string>): Option<string> {
    if WorkspaceStorageDir(home) in dirs then ScanWorkspaces(home, files, dirs, folders) else None
  }

  /** The decision order: a specified profile (`default` being the user
      directory itself), the profile named by `argv.json`, the first profile
      named by a workspace, the user's choice among the existing profile
      directories, and finally the user directory, which is also the answer
      whenever a step outside the workspace scan throws.  Method 3, the
      global-storage scan, never decides anything and is skipped.
      `workspaces` is what `workspaceStorage` lists and `listing` what the
      profiles directory holds.  A specification helper: `ProfilePathShape`,
      `ProfileResolution` and `BrokenArgvFallsBack` state its properties. */
  function ProfilePath(home: string, specified: string, files: map<string, Doc>, dirs: set<string>,
                       workspaces: seq<string>, listing: seq<string>, answer: PromptAnswer): string
  {
    var base := UserDir(home);
    if specified == "default" then base
    else if specified != "" && ExistsIn(files, dirs, Join(ProfilesDir(home), specified)) then Join(ProfilesDir(home), specified)
    else match ArgvProfile(home, files, dirs)
      case Threw => base
      case Returned(Some(p)) => p
      case Returned(None) =>
        match WorkspaceProfile(home, files, dirs, workspaces)
        case Some(p) => p
        case None =>
          var profiles := Filter(listing, (name: string) => IsProfileDir(home, dirs, name));
          if !ExistsIn(files, dirs, ProfilesDir(home)) || profiles == [] then base
          else match answer
            case PromptFailed => Join(ProfilesDir(home), profiles[0])
            case Chose(v) => if v == "default" then base else Join(ProfilesDir(home), v)
  }

  /** The result is always the user directory or a directory inside the
      profiles directory. */
  lemma ProfilePathShape(home: string, specified: string, files: map<string, Doc>, dirs: set<string>,
                         workspaces: seq<string>, listing: seq<string>, answer: PromptAnswer)
    ensures var r := ProfilePath(home, specified, files, dirs, workspaces, listing, answer);
      r == UserDir(home) || StartsWith(r, ProfilesDir(home) + "/")
  {
    if specified != "default" && specified != "" && ExistsIn(files, dirs, Join(ProfilesDir(home), specified)) {
      JoinStartsWith(ProfilesDir(home), specified);
    } else if ArgvProfile(home, files, dirs) == Returned(None) && WorkspaceProfile(home, files, dirs, workspaces).None? {
      var profiles := Filter(listing, (name: string) => IsProfileDir(home, dirs, name));
      if ExistsIn(files, dirs, ProfilesDir(home)) && profiles != [] {
        match answer
        case PromptFailed => JoinStartsWith(ProfilesDir(home), profiles[0]);
        case Chose(v) => JoinStartsWith(ProfilesDir(home), v);
      }
    }
  }

  lemma JoinStartsWith(d: string, name: string)
    ensures StartsWith(Join(d, name), d + "/")
  {
    assert Join(d, name)[..|d| + 1] == d + "/";
  }

  /** `default` selects the user directory, an existing specified profile is
      used as is, a profile found by the workspace scan is used when nothing
      is specified and there is no argv.json, and with nothing else to go on
      (no argv.json, no workspace storage and no profiles directory) the user
      directory is the answer. */
  lemma ProfileResolution(home: string, specified: string, files: map<string, Doc>, dirs: set<string>,
                          workspaces: seq<string>, listing: seq<string>, answer: PromptAnswer)
    ensures ProfilePath(home, "default", files, dirs, workspaces, listing, answer) == UserDir(home)
    ensures specified != "" && specified != "default" && ExistsIn(files, dirs, Join(ProfilesDir(home), specified)) ==>
      ProfilePath(home, specified, files, dirs, workspaces, listing, answer) == Join(ProfilesDir(home), specified)
    ensures specified == "" && !ExistsIn(files, dirs, ArgvFile(home))
            && WorkspaceProfile(home, files, dirs, workspaces).Some? ==>
      ProfilePath(home, specified, files, dirs, workspaces, listing, answer) == WorkspaceProfile(home, files, dirs, workspaces).value
    ensures !ExistsIn(files, dirs, Join(ProfilesDir(home), specified)) && !ExistsIn(files, dirs, ArgvFile(home))
            && WorkspaceStorageDir(home) !in dirs && !ExistsIn(files, dirs, ProfilesDir(home)) ==>
      ProfilePath(home, specified, files, dirs, workspaces, listing, answer) == UserDir(home)
  {
  }

  /** A malformed argv.json makes the whole detection fall back to the user
      directory, even when profiles exist. */
  lemma BrokenArgvFallsBack(home: string, files: map<string, Doc>, dirs: set<string>,
                            workspaces: seq<string>, listing: seq<string>, answer: PromptAnswer, text: string)
    requires ArgvFile(home) in files && files[ArgvFile(home)] == Plain(text)
    ensures ProfilePath(home, "", files, dirs, workspaces, listing, answer) == UserDir(home)
  {
  }
}
