/** lib/chatmode-manager.js: where a project keeps its chatmodes, which of
    its files are installed chatmodes, whether a directory is a project, and
    the two VS Code settings the installer turns on. */
module Chatmodes {
  import opened Json
  import opened Seqs
  import opened Text
  import opened Files

  /** The directory layout under a project. */
  function GithubDir(project: string): string { Join(project, ".github") }
  function ChatmodesDir(project: string): string { Join(GithubDir(project), "chatmodes") }
  function InstructionsDir(project: string): string { Join(GithubDir(project), "instructions") }
  function VSCodeDir(project: string): string { Join(project, ".vscode") }
  function SettingsFile(project: string): string { Join(VSCodeDir(project), "settings.json") }

  const ChatmodeSuffix: string := ".chatmode.md"

  /** The two settings `createVSCodeSettings` turns on. */
  const NestedAgentsKey: string := "chat.useNestedAgentsMdFiles"
  const SessionsViewKey: string := "chat.agentSessionsViewLocation"

  predicate IsChatmodeFile(name: string) {
    EndsWith(name, ChatmodeSuffix)
  }

  /** `getInstalledChatmodes`, given whether the chatmodes directory exists
      and what listing it returned (or that listing it threw). */
  function InstalledChatmodes(dirExists: bool, listing: Attempt<seq<string>>): (r: seq<string>)
    ensures !dirExists || listing.Threw? ==> r == []
    ensures dirExists && listing.Returned? ==>
      (forall x :: x in r <==> x in listing.value && IsChatmodeFile(x))
  {
    if !dirExists then []
    else match listing
      case Threw => []
      case Returned(names) => Filter(names, IsChatmodeFile)
  }

  /** The filter keeps the listing's order: a listing made of two parts gives
      the chatmodes of the first part, then those of the second; filtering
      an already filtered list changes nothing. */
  lemma InstalledChatmodesKeepOrder(a: seq<string>, b: seq<string>)
    ensures InstalledChatmodes(true, Returned(a + b)) ==
            InstalledChatmodes(true, Returned(a)) + InstalledChatmodes(true, Returned(b))
    ensures InstalledChatmodes(true, Returned(InstalledChatmodes(true, Returned(a)))) ==
            InstalledChatmodes(true, Returned(a))
  {
    FilterAppend(a, b, IsChatmodeFile);
    var f := Filter(a, IsChatmodeFile);
    FilterAll(f, IsChatmodeFile);
  }

  /** The settings a corrupt or missing file stands for. */
  function SettingsBase(existing: Option<Doc>): Value {
    if existing.Some? && existing.value.JsonDoc? then existing.value.v else Obj(map[])
  }

  /** The settings `createVSCodeSettings` writes: the file's settings (or
      `{}` when it is missing or not JSON) with the two chat keys set.
      Settings that are JSON `null` make the first assignment throw. */
  function SettingsAfter(existing: Option<Doc>): (r: Attempt<Value>)
    ensures SettingsBase(existing).Obj? ==> r.Returned? && r.value.Obj?
    ensures SettingsBase(existing).Null? <==> r.Threw?
  {
    match SetField(SettingsBase(existing), NestedAgentsKey, Bool(true))
    case Threw => Threw
    case Returned(s) => SetField(s, SessionsViewKey, Str("view"))
  }

  /** On an object, the two keys are set and every other key keeps its
      value; a corrupt file gives exactly the two keys. */
  lemma SettingsSetsTwoKeys(existing: Option<Doc>)
    requires SettingsBase(existing).Obj?
    ensures var before := SettingsBase(existing).fields;
      var after := SettingsAfter(existing).value.fields;
      && after.Keys == before.Keys + {NestedAgentsKey, SessionsViewKey}
      && after[NestedAgentsKey] == Bool(true)
      && after[SessionsViewKey] == Str("view")
      && (forall k :: k in before && k != NestedAgentsKey && k != SessionsViewKey ==>
            after[k] == before[k])
  {
  }

  lemma CorruptSettingsStartFresh(text: string)
    ensures SettingsAfter(Some(Plain(text))) == Returned(Obj(map[
      NestedAgentsKey := Bool(true), SessionsViewKey := Str("view")]))
  {
  }

  /** Running it again on what it wrote gives the same settings. */
  lemma SettingsIdempotent(existing: Option<Doc>)
    requires SettingsAfter(existing).Returned?
    ensures SettingsAfter(Some(JsonDoc(SettingsAfter(existing).value))) == SettingsAfter(existing)
  {
    var base := SettingsBase(existing);
    if base.Obj? {
      var once := SettingsAfter(existing).value;
      var m := base.fields[NestedAgentsKey := Bool(true)][SessionsViewKey := Str("view")];
      assert once == Obj(m);
      assert m[NestedAgentsKey := Bool(true)][SessionsViewKey := Str("view")] == m;
    }
  }

  /** `validateProject`: the directory holds a package.json or a .git. */
  predicate IsProject(files: map<string, Doc>, dirs: set<string>, projectPath: string) {
    ExistsIn(files, dirs, Join(projectPath, "package.json")) || ExistsIn(files, dirs, Join(projectPath, ".git"))
  }

  /** Writing the project's package.json, as the dependency installation
      does, makes the directory a project. */
  lemma PackageWriteMakesProject(files: map<string, Doc>, dirs: set<string>, projectPath: string, doc: Doc)
    ensures IsProject(files[Join(projectPath, "package.json") := doc], dirs, projectPath)
  {
  }

  /** The installer only adds files and directories, so a project stays a
      project; a directory with neither file is not one. */
  lemma ProjectStaysProject(files: map<string, Doc>, dirs: set<string>, files': map<string, Doc>, dirs': set<string>,
                            projectPath: string)
    requires files.Keys <= files'.Keys && dirs <= dirs'
    ensures IsProject(files, dirs, projectPath) ==> IsProject(files', dirs', projectPath)
    ensures !ExistsIn(files, dirs, Join(projectPath, "package.json")) && !ExistsIn(files, dirs, Join(projectPath, ".git")) ==>
      !IsProject(files, dirs, projectPath)
  {
  }

  class ChatmodeManager {
    const projectPath: string
    const githubDir: string
    const chatmodesDir: string
    const instructionsDir: string

    constructor (projectPath: string)
      ensures this.projectPath == projectPath
      ensures githubDir == projectPath + "/.github"
      ensures chatmodesDir == projectPath + "/.github/chatmodes"
      ensures instructionsDir == projectPath + "/.github/instructions"
      ensures chatmodesDir == ChatmodesDir(projectPath) && instructionsDir == InstructionsDir(projectPath)
    {
      this.projectPath := projectPath;
      githubDir := GithubDir(projectPath);
      chatmodesDir := ChatmodesDir(projectPath);
      instructionsDir := InstructionsDir(projectPath);
    }

    method EnsureDirectories(fs: Fs)
      modifies fs`dirs
      ensures fs.dirs == old(fs.dirs) + {chatmodesDir, instructionsDir}
    {
      fs.EnsureDir(chatmodesDir);
      fs.EnsureDir(instructionsDir);
    }

    /** `getInstalledChatmodes` on the file system, given what listing the
        directory yields. */
    method GetInstalledChatmodes(fs: Fs, listing: Attempt<seq<string>>) returns (names: seq<string>)
      ensures names == InstalledChatmodes(fs.Exists(chatmodesDir), listing)
    {
      if !fs.Exists(chatmodesDir) {
        return [];
      }
      match listing {
        case Threw => names := [];
        case Returned(entries) =>
          names := [];
          var i := 0;
          while i < |entries|
            invariant 0 <= i <= |entries|
            invariant names == Filter(entries[..i], IsChatmodeFile)
          {
            FilterAppend(entries[..i], [entries[i]], IsChatmodeFile);
            assert entries[..i + 1] == entries[..i] + [entries[i]];
            if IsChatmodeFile(entries[i]) {
              names := names + [entries[i]];
            }
            i := i + 1;
          }
          assert entries[..i] == entries;
      }
    }

    /** `validateProject` on the file system.  A specification helper;
        `IsProject` and the lemmas beside it say what it accepts. */
    function ValidateProject(fs: Fs): bool
      reads fs
    {
      IsProject(fs.files, fs.dirs, projectPath)
    }

    /** `createVSCodeSettings`: the .vscode directory is created, then the
        settings are read (an unreadable file counts as empty), the two keys
        set and the file written; on `null` settings nothing is written. */
    method CreateVSCodeSettings(fs: Fs) returns (r: Attempt<()>)
      modifies fs
      ensures fs.dirs == old(fs.dirs) + {VSCodeDir(projectPath)}
      ensures var path := SettingsFile(projectPath);
        var existing := if path in old(fs.files) then Some(old(fs.files)[path]) else None;
        match SettingsAfter(existing)
        case Threw => r.Threw? && fs.files == old(fs.files)
        case Returned(s) => r == Returned(()) && fs.files == old(fs.files)[path := JsonDoc(s)]
    {
      var path := SettingsFile(projectPath);
      fs.EnsureDir(VSCodeDir(projectPath));
      var settings := Obj(map[]);
      if fs.Exists(path) {
        var read := ReadJson(fs.files, path);
        if read.Returned? {
          settings := read.value;
        }
      }
      var first := SetField(settings, NestedAgentsKey, Bool(true));
      if first.Threw? {
        return Threw;
      }
      var second := SetField(first.value, SessionsViewKey, Str("view"));
      if second.Threw? {
        return Threw;
      }
      fs.WriteJson(path, second.value);
      r := Returned(());
    }
  }
}
