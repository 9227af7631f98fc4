/** The chatmode installation rules of bin/cli.js: which files a chatmode
    type installs and when an existing file is overwritten, and the
    target-directory check at the start of `install`.

    The file system is a `Files.Fs`. */
module Installer {
  import opened Json
  import opened Files
  import opened Chatmodes

  // ---------------------------------------------------------------------
  // Chatmode selection and copying (installSpecificChatmode)
  // ---------------------------------------------------------------------

  const TestGenieFile: string := "\U{058E}\U{1F1E6}\U{1F1EE}\U{1F9DE} TestGenie.chatmode.md"
  const BugGenieFile: string := "\U{1FAB0}\U{168A5}\U{1F9DE}\U{200D}\U{2640}\U{FE0F} BugGenie.chatmode.md"
  const ScriptGeneratorFile: string := "\U{1F9DE}\U{200D}\U{2640}\U{FE0F}\U{1F916} ScriptGenerator.chatmode.md"
  const InstructionFile: string := "copilotinstruction.mdd"

  /** The files one chatmode type installs: its chatmode file and, for some
      types, an instruction file. */
  datatype Chatmode = Chatmode(file: string, instruction: Option<string>)

  /** The `switch` on the type; `None` is the `Unknown chatmode type` error.
      A specification helper; `ChatmodeSelection` and `FileNamesHaveNoSlash`
      state its properties. */
  function ChatmodeFor(t: string): Option<Chatmode> {
    if t == "test" then Some(Chatmode(TestGenieFile, Some(InstructionFile)))
    else if t == "bug" then Some(Chatmode(BugGenieFile, Some(InstructionFile)))
    else if t == "script" then Some(Chatmode(ScriptGeneratorFile, None))
    else None
  }

  /** Exactly the three types are known; each has its own chatmode file,
      which `getInstalledChatmodes` recognises, while the instruction file is
      shared by `test` and `bug`, is not a chatmode, and `script` has none. */
  lemma ChatmodeSelection(t: string)
    ensures ChatmodeFor(t).Some? <==> t == "test" || t == "bug" || t == "script"
    ensures ChatmodeFor(t).Some? ==> IsChatmodeFile(ChatmodeFor(t).value.file)
    ensures ChatmodeFor(t).Some? ==>
      (ChatmodeFor(t).value.instruction.Some? <==> t != "script")
    ensures ChatmodeFor(t).Some? && ChatmodeFor(t).value.instruction.Some? ==>
      ChatmodeFor(t).value.instruction.value == InstructionFile && !IsChatmodeFile(InstructionFile)
    ensures ChatmodeFor("test").value.instruction == ChatmodeFor("bug").value.instruction
    ensures ChatmodeFor("test").value.file != ChatmodeFor("bug").value.file
    ensures ChatmodeFor("test").value.file != ChatmodeFor("script").value.file
    ensures ChatmodeFor("bug").value.file != ChatmodeFor("script").value.file
  {
    assert TestGenieFile[|TestGenieFile| - 12..] == ChatmodeSuffix;
    assert BugGenieFile[|BugGenieFile| - 12..] == ChatmodeSuffix;
    assert ScriptGeneratorFile[|ScriptGeneratorFile| - 12..] == ChatmodeSuffix;
    assert TestGenieFile[0] != BugGenieFile[0];
    assert TestGenieFile[0] != ScriptGeneratorFile[0];
    assert BugGenieFile[0] != ScriptGeneratorFile[0];
  }

  /** The copy rule: copy when the source exists and the target is absent or
      `force` is set.  The sources are the template's chatmode and
      instruction files, so a source is tested among the files; a directory
      at a source path, which `fs.copy` would copy recursively, is not
      modelled. */
  predicate ShouldCopy(files: map<string, Doc>, dirs: set<string>, src: string, dst: string, force: bool) {
    src in files && (!ExistsIn(files, dirs, dst) || force)
  }

  /** The files after one guarded copy. */
  function CopyIfAllowed(files: map<string, Doc>, dirs: set<string>, src: string, dst: string, force: bool): (r: map<string, Doc>)
    ensures ShouldCopy(files, dirs, src, dst, force) ==> dst in r && r[dst] == files[src]
    ensures !ShouldCopy(files, dirs, src, dst, force) ==> r == files
    ensures r.Keys <= files.Keys + {dst}
    ensures forall p :: p in files && p != dst ==> p in r && r[p] == files[p]
  {
    if ShouldCopy(files, dirs, src, dst, force) then files[dst := files[src]] else files
  }

  /** Without `force`, a guarded copy never overwrites anything. */
  lemma CopyKeepsExisting(files: map<string, Doc>, dirs: set<string>, src: string, dst: string, p: string)
    requires p in files
    ensures p in CopyIfAllowed(files, dirs, src, dst, false)
    ensures CopyIfAllowed(files, dirs, src, dst, false)[p] == files[p]
  {
    if p == dst {
      assert ExistsIn(files, dirs, dst);
    }
  }

  /** The files after `installSpecificChatmode`, or `Threw` for an unknown
      type.  A specification helper; `InstallKeepsExisting` and
      `ForceInstallsTemplate` state its properties and
      `InstallSpecificChatmode` is proved against it. */
  function ChatmodeInstalled(files: map<string, Doc>, dirs: set<string>, sourceDir: string,
                             chatmodesDir: string, instructionsDir: string, t: string, force: bool): Attempt<map<string, Doc>>
  {
    match ChatmodeFor(t)
    case None => Threw
    case Some(c) =>
      var afterChatmode := CopyIfAllowed(files, dirs, Join(Join(sourceDir, "chatmodes"), c.file), Join(chatmodesDir, c.file), force);
      match c.instruction
      case None => Returned(afterChatmode)
      case Some(i) =>
        Returned(CopyIfAllowed(afterChatmode, dirs, Join(Join(sourceDir, "instructions"), i), Join(instructionsDir, i), force))
  }

  /** An install without `force` leaves every existing file as it was. */
  lemma {:induction false} InstallKeepsExisting(files: map<string, Doc>, dirs: set<string>, sourceDir: string,
                                               chatmodesDir: string, instructionsDir: string, t: string, p: string)
    requires p in files
    requires ChatmodeInstalled(files, dirs, sourceDir, chatmodesDir, instructionsDir, t, false).Returned?
    ensures var after := ChatmodeInstalled(files, dirs, sourceDir, chatmodesDir, instructionsDir, t, false).value;
      p in after && after[p] == files[p]
  {
    var c := ChatmodeFor(t).value;
    var afterChatmode := CopyIfAllowed(files, dirs, Join(Join(sourceDir, "chatmodes"), c.file), Join(chatmodesDir, c.file), false);
    CopyKeepsExisting(files, dirs, Join(Join(sourceDir, "chatmodes"), c.file), Join(chatmodesDir, c.file), p);
    if c.instruction.Some? {
      var i := c.instruction.value;
      CopyKeepsExisting(afterChatmode, dirs, Join(Join(sourceDir, "instructions"), i), Join(instructionsDir, i), p);
    }
  }

  /** With `force`, the chatmode file is replaced by its template whenever
      the template exists (the instruction copy cannot undo it, as it writes
      into another directory). */
  lemma ForceInstallsTemplate(files: map<string, Doc>, dirs: set<string>, sourceDir: string,
                              chatmodesDir: string, instructionsDir: string, t: string)
    requires ChatmodeFor(t).Some?
    requires chatmodesDir != instructionsDir
    requires Join(Join(sourceDir, "chatmodes"), ChatmodeFor(t).value.file) in files
    ensures var c := ChatmodeFor(t).value;
      var after := ChatmodeInstalled(files, dirs, sourceDir, chatmodesDir, instructionsDir, t, true).value;
      Join(chatmodesDir, c.file) in after && after[Join(chatmodesDir, c.file)] == files[Join(Join(sourceDir, "chatmodes"), c.file)]
  {
    var c := ChatmodeFor(t).value;
    FileNamesHaveNoSlash(t);
    if c.instruction.Some? {
      JoinDistinct(chatmodesDir, instructionsDir, c.file, c.instruction.value);
    }
  }

  /** The installed file names are plain names, not paths. */
  lemma FileNamesHaveNoSlash(t: string)
    requires ChatmodeFor(t).Some?
    ensures '/' !in ChatmodeFor(t).value.file
    ensures ChatmodeFor(t).value.instruction.Some? ==> '/' !in ChatmodeFor(t).value.instruction.value
  {
    assert forall i :: 0 <= i < |TestGenieFile| ==> TestGenieFile[i] != '/';
    assert forall i :: 0 <= i < |BugGenieFile| ==> BugGenieFile[i] != '/';
    assert forall i :: 0 <= i < |ScriptGeneratorFile| ==> ScriptGeneratorFile[i] != '/';
    assert forall i :: 0 <= i < |InstructionFile| ==> InstructionFile[i] != '/';
  }

  /** Paths under two different directories are different, as long as the
      file names hold no `/`. */
  lemma JoinDistinct(d1: string, d2: string, f1: string, f2: string)
    requires d1 != d2 && '/' !in f1 && '/' !in f2
    ensures Join(d1, f1) != Join(d2, f2)
  {
    var s1, s2 := Join(d1, f1), Join(d2, f2);
    if |f1| < |f2| {
      assert s1[|s1| - |f1| - 1] == '/';
    } else if |f2| < |f1| {
      assert s2[|s2| - |f2| - 1] == '/';
    } else if |s1| == |s2| {
      assert s1[..|d1|] == d1 && s2[..|d2|] == d2;
    }
  }

  /** `installSpecificChatmode` on the file system. */
  method InstallSpecificChatmode(fs: Fs, sourceDir: string, chatmodesDir: string, instructionsDir: string,
                                 t: string, force: bool) returns (r: Attempt<()>)
    modifies fs`files
    ensures match ChatmodeInstalled(old(fs.files), fs.dirs, sourceDir, chatmodesDir, instructionsDir, t, force)
      case Threw => r.Threw? && fs.files == old(fs.files)
      case Returned(after) => r == Returned(()) && fs.files == after
  {
    var selected := ChatmodeFor(t);
    if selected.None? {
      return Threw;
    }
    var c := selected.value;
    var sourceChatmode := Join(Join(sourceDir, "chatmodes"), c.file);
    var targetChatmode := Join(chatmodesDir, c.file);
    if sourceChatmode in fs.files {
      if !fs.Exists(targetChatmode) || force {
        fs.Copy(sourceChatmode, targetChatmode);
      }
    }
    if c.instruction.Some? {
      var sourceInstruction := Join(Join(sourceDir, "instructions"), c.instruction.value);
      var targetInstruction := Join(instructionsDir, c.instruction.value);
      if sourceInstruction in fs.files {
        if !fs.Exists(targetInstruction) || force {
          fs.Copy(sourceInstruction, targetInstruction);
        }
      }
    }
    r := Returned(());
  }

  // ---------------------------------------------------------------------
  // The target-directory check of `install`
  // ---------------------------------------------------------------------

  /** How the start of `install` ends: it exits with code 1 after tracking an
      `install_error` event with the given data, or it proceeds. */
  datatype Preflight = Exit(code: int, event: string, data: Value) | Proceed

  /** The error data: the message, then the command options spread over it. */
  function MissingDirData(targetPath: string, options: map<string, Value>): (v: Value)
    ensures v.Obj? && "error" in v.fields
    ensures "error" !in options ==> v.fields["error"] == Str("Directory " + targetPath + " does not exist")
    ensures forall k :: k in options ==> k in v.fields && v.fields[k] == options[k]
  {
    Obj(map["error" := Str("Directory " + targetPath + " does not exist")] + options)
  }

  /** A missing target directory ends the command before any directory is
      created; otherwise the chatmodes and instructions directories are
      created. */
  method CheckTarget(fs: Fs, targetPath: string, options: map<string, Value>) returns (p: Preflight)
    modifies fs`dirs
    ensures !old(fs.Exists(targetPath)) ==>
      p == Exit(1, "install_error", MissingDirData(targetPath, options)) && fs.dirs == old(fs.dirs)
    ensures old(fs.Exists(targetPath)) ==>
      p == Proceed && fs.dirs == old(fs.dirs) + {ChatmodesDir(targetPath), InstructionsDir(targetPath)}
  {
    if !fs.Exists(targetPath) {
      return Exit(1, "install_error", MissingDirData(targetPath, options));
    }
    var manager := new ChatmodeManager(targetPath);
    manager.EnsureDirectories(fs);
    p := Proceed;
  }
}
